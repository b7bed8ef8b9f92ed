/** instantiate_sub_w_carry and instantiate_unary_sub: subtraction by inverters and a ripple with carry in one. */
module Subtractors {
  import opened Wrappers
  import opened Bits
  import opened Semantics
  import opened Runs
  import opened Netlists
  import opened RippleCells
  import opened RippleBuild
  import opened Networks

  /** Widths of the result and the operands; a negation has one operand, at least as wide as the result. */
  datatype Feed = Feed(w: nat, wa: nat, wb: nat, unary: bool)

  /** Sum cell, inverter and carry cell of a position are created together; the last position has no carry cell. */
  function SumAt(i: nat): nat { 3 * i }
  function NotAt(i: nat): nat { 3 * i + 1 }
  function CarryCellAt(i: nat): nat { 3 * i + 2 }

  function First(f: Feed, i: nat): Source {
    if f.unary then From(NotAt(i), 0) else if i < f.wa then Operand(i) else Const0
  }

  function Second(f: Feed, i: nat): Source {
    if f.unary then Const0 else From(NotAt(i), 0)
  }

  function Inverted(f: Feed, i: nat): Source {
    if f.unary then Operand(i) else if i < f.wb then Operand(f.wa + i) else Const0
  }

  function CarrySlot(f: Feed, i: nat): Slot {
    if i == 0 then Slot(Const1, 0) else Slot(From(CarryCellAt(i - 1), 0), f.w + i)
  }

  function RippleSlots(f: Feed, i: nat): seq<Slot> {
    [CarrySlot(f, i), Slot(First(f, i), 1 + i), Slot(Second(f, i), 1 + i)]
  }

  function SumSpec(f: Feed, i: nat): Spec { Spec(AdderFunc, [Bit1, Bit1, Bit1], RippleSlots(f, i), [1], 1, Some(i)) }
  function NotSpec(f: Feed, i: nat): Spec { Spec(LogicalNot, [], [Slot(Inverted(f, i), 1 + i)], [], 1, None) }
  function CarrySpec(f: Feed, i: nat): Spec { Spec(CarryFunc, [Bit1, Bit1, Bit1], RippleSlots(f, i), [1], 1, None) }

  function SubPlan(f: Feed): (r: seq<Spec>)
    requires f.w >= 1
    ensures |r| == 3 * f.w - 1
  {
    seq(3 * f.w - 1, (x: nat) => if x % 3 == 0 then SumSpec(f, x / 3) else if x % 3 == 1 then NotSpec(f, x / 3)
      else CarrySpec(f, x / 3))
  }

  lemma {:induction false} PlanAt(f: Feed, i: nat)
    requires i < f.w
    ensures SubPlan(f)[SumAt(i)] == SumSpec(f, i) && SubPlan(f)[NotAt(i)] == NotSpec(f, i)
    ensures i < f.w - 1 ==> SubPlan(f)[CarryCellAt(i)] == CarrySpec(f, i)
  {
  }

  /** Each gate of the plan is one of the three of its position. */
  lemma {:induction false} PlanIs(f: Feed, x: nat) returns (i: nat)
    requires f.w >= 1 && x < |SubPlan(f)|
    ensures i < f.w
    ensures (x == SumAt(i) && SubPlan(f)[x] == SumSpec(f, i)) || (x == NotAt(i) && SubPlan(f)[x] == NotSpec(f, i))
      || (x == CarryCellAt(i) && i < f.w - 1 && SubPlan(f)[x] == CarrySpec(f, i))
  {
    i := x / 3;
  }

  function Ranks(f: Feed): (r: seq<nat>)
    requires f.w >= 1
    ensures |r| == 3 * f.w - 1
    ensures forall x {:trigger r[x]} :: 0 <= x < |r| ==> r[x] == if x % 3 == 2 then 1 + x / 3 else 0
  {
    seq(3 * f.w - 1, (x: nat) => if x % 3 == 2 then 1 + x / 3 else 0)
  }

  function SumIds(f: Feed): (r: seq<nat>)
    ensures |r| == f.w && forall i {:trigger r[i]} :: 0 <= i < f.w ==> r[i] == SumAt(i)
  {
    seq(f.w, (i: nat) => SumAt(i))
  }

  predicate Fits(f: Feed, c: Cell) {
    && c.kind.Minus? && |c.outs| == f.w >= 1 && c.outPorts == [f.w] && AllSome(c.ins) && AllSome(c.outs)
    && (if f.unary then c.inPorts == [Port(Plain, f.wa)] && |c.ins| == f.wa >= f.w
        else |c.inPorts| == 2 && c.inPorts[0] == Port(Plain, f.wa) && c.inPorts[1] == Port(Plain, f.wb) && |c.ins| == f.wa + f.wb)
  }

  lemma {:induction false} PlanFits(z: Site, f: Feed)
    requires Fits(f, z.c)
    ensures var plan := SubPlan(f);
      && TakesFit(z, plan) && OneTaker(plan) && TakersLast(plan) && AllRounds(plan, 2 * f.w)
        && AllTaken(z, plan, SumIds(f))
  {
    hide SubPlan;
    var plan := SubPlan(f);
    forall x: nat {:trigger plan[x]} | x < |plan|
      ensures plan[x].takes.Some? ==> x == SumAt(plan[x].takes.value) && plan[x].outs == 1 && plan[x].takes.value < f.w
      ensures forall s {:trigger plan[x].slots[s]} :: 0 <= s < |plan[x].slots| ==> plan[x].slots[s].round < 2 * f.w
      ensures forall s {:trigger plan[x].slots[s]} :: 0 <= s < |plan[x].slots| && plan[x].slots[s].src.From? ==>
        Inner(plan, plan[x].slots[s].src.o)
    {
      var i := PlanIs(f, x);
      PlanAt(f, i);
      if i > 0 { PlanAt(f, i - 1); }
    }
    forall j {:trigger SumIds(f)[j]} | 0 <= j < f.w ensures plan[SumIds(f)[j]].takes == Some(j) { PlanAt(f, j); }
  }

  lemma {:induction false} PlanRanked(f: Feed)
    requires f.w >= 1
    ensures Ranked(SubPlan(f), Ranks(f))
  {
    var plan, rank := SubPlan(f), Ranks(f);
    forall x: nat {:trigger plan[x]} | x < |plan|
      ensures Combinational(plan[x].kind)
      ensures Inner(plan, x) ==>
        forall s {:trigger plan[x].slots[s]} :: 0 <= s < |plan[x].slots| && plan[x].slots[s].src.From? ==>
        Inner(plan, plan[x].slots[s].src.o) && rank[plan[x].slots[s].src.o] < rank[x]
    {
      var i := PlanIs(f, x);
      PlanAt(f, i);
      if i > 0 { PlanAt(f, i - 1); }
    }
  }

  // ----- building -----

  method CreateRipple(g: Netlist, w: nat, ghost a: NL, ghost plan: seq<Spec>, ghost f: Feed)
    requires Creating(g, a, plan, 0) && f.w == w >= 1 && plan == SubPlan(f)
    modifies g
    ensures Creating(g, a, plan, |plan|) && g.Steady(old(g.fence), old(g.fenced), old(g.tidy))
  {
    for i := 0 to w
      invariant Creating(g, a, plan, if i < w then 3 * i else 3 * w - 1)
      invariant g.Steady(old(g.fence), old(g.fenced), old(g.tidy))
    {
      PlanAt(f, i);
      CreateGate(g, AdderFunc, [Bit1, Bit1, Bit1], 3, [1], 1, a, plan, 3 * i);
      CreateGate(g, LogicalNot, [], 1, [], 1, a, plan, 3 * i + 1);
      if i < w - 1 {
        CreateGate(g, CarryFunc, [Bit1, Bit1, Bit1], 3, [1], 1, a, plan, 3 * i + 2);
      }
    }
  }

  /** The loop invariant: `i` rounds done, `d` outputs moved. */
  ghost predicate Rippling(g: Netlist, a: NL, n: nat, z: Site, f: Feed, i: nat, extra: set<(nat, nat)>, d: nat)
    reads g
  {
    Fits(f, z.c) && Building(g, a, n, z, SubPlan(f), i, extra, d)
  }

  ghost function Both(x: nat, y: nat, s: nat, two: bool): set<(nat, nat)> {
    {(x, s)} + (if two then {(y, s)} else {})
  }

  /** A constant into slot `s` of the sum cell and, unless it is the last, the carry cell of position `i`. */
  method BothConst(g: Netlist, n: nat, w: nat, c0: nat, i: nat, s: nat, high: bool, ghost a: NL, ghost z: Site,
                   ghost f: Feed, ghost r: nat, ghost extra: set<(nat, nat)>, ghost d: nat)
    requires Rippling(g, a, n, z, f, r, extra, d) && c0 == z.c0 && w == f.w && i < w
    requires CanFill(SubPlan(f), r, extra, SumAt(i), s, if high then Const1 else Const0)
    requires i < w - 1 ==> CanFill(SubPlan(f), r, extra, CarryCellAt(i), s, if high then Const1 else Const0)
    modifies g
    ensures Rippling(g, a, n, z, f, r, extra + Both(SumAt(i), CarryCellAt(i), s, i < w - 1), d)
    ensures g.Steady(old(g.fence), old(g.fenced), old(g.tidy)) && g.cells[n] == old(g.cells[n])
  {
    AttachConst(g, n, high, c0, SumAt(i), s, a, z, SubPlan(f), r, extra, d);
    ghost var extra1 := extra + {(SumAt(i), s)};
    if i < w - 1 {
      AttachConst(g, n, high, c0, CarryCellAt(i), s, a, z, SubPlan(f), r, extra1, d);
      assert extra1 + {(CarryCellAt(i), s)} == extra + Both(SumAt(i), CarryCellAt(i), s, true);
    } else {
      assert extra1 == extra + Both(SumAt(i), CarryCellAt(i), s, false);
    }
  }

  /** The output of gate `o` into slot `s` of the sum cell and, unless it is the last, the carry cell of position
      `i`. */
  method BothConnect(g: Netlist, n: nat, w: nat, c0: nat, o: nat, i: nat, s: nat, ghost a: NL, ghost z: Site,
                     ghost f: Feed, ghost r: nat, ghost extra: set<(nat, nat)>, ghost d: nat)
    requires Rippling(g, a, n, z, f, r, extra, d) && c0 == z.c0 && w == f.w && i < w && o != SumAt(i)
    requires o != CarryCellAt(i)
    requires Inner(SubPlan(f), o) && SubPlan(f)[o].outs == 1
    requires CanFill(SubPlan(f), r, extra, SumAt(i), s, From(o, 0))
    requires i < w - 1 ==> CanFill(SubPlan(f), r, extra, CarryCellAt(i), s, From(o, 0))
    modifies g
    ensures Rippling(g, a, n, z, f, r, extra + Both(SumAt(i), CarryCellAt(i), s, i < w - 1), d)
    ensures g.Steady(old(g.fence), old(g.fenced), old(g.tidy)) && g.cells[n] == old(g.cells[n])
  {
    Connect(g, n, o, 0, c0, SumAt(i), s, a, z, SubPlan(f), r, extra, d);
    ghost var extra1 := extra + {(SumAt(i), s)};
    if i < w - 1 {
      Connect(g, n, o, 0, c0, CarryCellAt(i), s, a, z, SubPlan(f), r, extra1, d);
      assert extra1 + {(CarryCellAt(i), s)} == extra + Both(SumAt(i), CarryCellAt(i), s, true);
    } else {
      assert extra1 == extra + Both(SumAt(i), CarryCellAt(i), s, false);
    }
  }

  /** Operand pins from position `i` on are still on the node. */
  ghost predicate Left(now: Cell, c: Cell, f: Feed, i: nat) {
    |now.ins| == |c.ins| && forall k {:trigger now.ins[k]} ::
      0 <= k < |c.ins| && (if f.unary || k < f.wa then k >= i else k - f.wa >= i) ==> now.ins[k] == c.ins[k]
  }

  /** The first operand of position `i` of a subtraction: the pin, with a copy for the carry cell, or zeros. */
  method FirstOperand(g: Netlist, n: nat, w: nat, wa: nat, c0: nat, i: nat, ghost a: NL, ghost z: Site, ghost f: Feed)
    requires Rippling(g, a, n, z, f, 1 + i, {}, i) && c0 == z.c0 && w == f.w && wa == f.wa && !f.unary && i < w
    requires Left(g.cells[n], z.c, f, i)
    modifies g
    ensures Rippling(g, a, n, z, f, 1 + i, Both(SumAt(i), CarryCellAt(i), 1, i < w - 1), i)
    ensures g.Steady(old(g.fence), old(g.fenced), old(g.tidy))
    ensures g.cells[n] == old(g.cells[n]).(ins := if i < wa then old(g.cells[n].ins)[i := None]
      else old(g.cells[n].ins))
  {
    hide Building, NetworkOk, Inverted, Netlist.Ready, SubPlan;
    PlanAt(f, i);
    ghost var plan := SubPlan(f);
    if i < wa {
      MoveOperand(g, n, i, c0, SumAt(i), 1, a, z, plan, 1 + i, {}, i);
      ghost var extra1 := {} + {(SumAt(i), 1)};
      if i < w - 1 {
        CopyOperand(g, n, SumAt(i), 1, c0, CarryCellAt(i), 1, a, z, plan, 1 + i, extra1, i, Operand(i));
        assert extra1 + {(CarryCellAt(i), 1)} == Both(SumAt(i), CarryCellAt(i), 1, true);
      } else {
        assert extra1 == Both(SumAt(i), CarryCellAt(i), 1, false);
      }
    } else {
      BothConst(g, n, w, c0, i, 1, false, a, z, f, 1 + i, {}, i);
      assert {} + Both(SumAt(i), CarryCellAt(i), 1, i < w - 1) == Both(SumAt(i), CarryCellAt(i), 1, i < w - 1);
    }
  }

  /** The inverter of position `i` gets its pin, or a zero. */
  method FeedInverter(g: Netlist, n: nat, k: nat, present: bool, c0: nat, i: nat, ghost a: NL, ghost z: Site,
                      ghost f: Feed, ghost extra: set<(nat, nat)>)
    requires Rippling(g, a, n, z, f, 1 + i, extra, i) && c0 == z.c0 && i < f.w && (NotAt(i), 0) !in extra
    requires Inverted(f, i) == if present then Operand(k) else Const0
    requires present ==> k < |z.c.ins| && k < |g.cells[n].ins| && g.cells[n].ins[k] == z.c.ins[k]
    modifies g
    ensures Rippling(g, a, n, z, f, 1 + i, extra + {(NotAt(i), 0)}, i)
    ensures g.Steady(old(g.fence), old(g.fenced), old(g.tidy))
    ensures present ==>
      k < |old(g.cells[n].ins)| && g.cells[n] == old(g.cells[n]).(ins := old(g.cells[n].ins)[k := None])
    ensures !present ==> g.cells[n] == old(g.cells[n])
  {
    PlanAt(f, i);
    if present {
      MoveOperand(g, n, k, c0, NotAt(i), 0, a, z, SubPlan(f), 1 + i, extra, i);
    } else {
      AttachConst(g, n, false, c0, NotAt(i), 0, a, z, SubPlan(f), 1 + i, extra, i);
    }
  }

  /** The output pin of position `i`, and the end of its round. */
  method FinishPosition(g: Netlist, n: nat, c0: nat, i: nat, ghost a: NL, ghost z: Site, ghost f: Feed,
                        ghost extra: set<(nat, nat)>)
    requires Rippling(g, a, n, z, f, 1 + i, extra, i) && c0 == z.c0 && i < f.w
    requires extra == Both(SumAt(i), CarryCellAt(i), 1, i < f.w - 1) + Both(SumAt(i), CarryCellAt(i), 2, i < f.w - 1)
      + {(NotAt(i), 0)}
    modifies g
    ensures Rippling(g, a, n, z, f, 2 + i, {}, i + 1) && g.Steady(old(g.fence), old(g.fenced), old(g.tidy))
    ensures g.cells[n].ins == old(g.cells[n].ins)
  {
    hide Building;
    PlanAt(f, i);
    PlanFits(z, f);
    MoveOutput(g, n, c0, SumAt(i), i, a, z, SubPlan(f), 1 + i, extra);
    RoundOf(f, i, extra);
    NextRound(g, a, n, z, SubPlan(f), 1 + i, extra, i + 1);
  }

  lemma {:induction false} RoundOf(f: Feed, i: nat, extra: set<(nat, nat)>)
    requires i < f.w
    requires extra == Both(SumAt(i), CarryCellAt(i), 1, i < f.w - 1) + Both(SumAt(i), CarryCellAt(i), 2, i < f.w - 1)
      + {(NotAt(i), 0)}
    ensures RoundIs(SubPlan(f), 1 + i, extra)
  {
    var plan := SubPlan(f);
    forall x: nat, s: nat | x < |plan| && s < |plan[x].slots|
      ensures plan[x].slots[s].round == 1 + i <==> (x, s) in extra {
      var j := PlanIs(f, x);
    }
  }

  /** One round of the operand loop of a subtraction. */
  method SubPosition(g: Netlist, n: nat, w: nat, wa: nat, wb: nat, c0: nat, i: nat, ghost a: NL, ghost z: Site,
                     ghost f: Feed)
    requires Rippling(g, a, n, z, f, 1 + i, {}, i) && c0 == z.c0 && w == f.w && wa == f.wa && wb == f.wb && !f.unary
    requires i < w && Left(g.cells[n], z.c, f, i)
    modifies g
    ensures Rippling(g, a, n, z, f, 2 + i, {}, i + 1) && g.Steady(old(g.fence), old(g.fenced), old(g.tidy))
    ensures Left(g.cells[n], z.c, f, i + 1)
  {
    ghost var extra := Both(SumAt(i), CarryCellAt(i), 1, i < w - 1);
    FirstOperand(g, n, w, wa, c0, i, a, z, f);
    FeedInverter(g, n, wa + i, i < wb, c0, i, a, z, f, extra);
    ConnectInverter(g, n, w, c0, i, a, z, f, extra);
  }

  /** The inverter feeds both cells of its position; the output pin moves. */
  method ConnectInverter(g: Netlist, n: nat, w: nat, c0: nat, i: nat, ghost a: NL, ghost z: Site, ghost f: Feed,
                         ghost extra: set<(nat, nat)>)
    requires extra == Both(SumAt(i), CarryCellAt(i), 1, i < w - 1) && w == f.w && !f.unary && i < w && c0 == z.c0
    requires Rippling(g, a, n, z, f, 1 + i, extra + {(NotAt(i), 0)}, i)
    modifies g
    ensures Rippling(g, a, n, z, f, 2 + i, {}, i + 1) && g.Steady(old(g.fence), old(g.fenced), old(g.tidy))
    ensures g.cells[n].ins == old(g.cells[n].ins)
  {
    PlanAt(f, i);
    BothConnect(g, n, w, c0, NotAt(i), i, 2, a, z, f, 1 + i, extra + {(NotAt(i), 0)}, i);
    ghost var all := extra + {(NotAt(i), 0)} + Both(SumAt(i), CarryCellAt(i), 2, i < w - 1);
    assert all == extra + Both(SumAt(i), CarryCellAt(i), 2, i < w - 1) + {(NotAt(i), 0)};
    FinishPosition(g, n, c0, i, a, z, f, all);
  }

  /** One round of the operand loop of a negation. */
  method NegPosition(g: Netlist, n: nat, w: nat, c0: nat, i: nat, ghost a: NL, ghost z: Site, ghost f: Feed)
    requires Rippling(g, a, n, z, f, 1 + i, {}, i) && c0 == z.c0 && w == f.w && f.unary && i < w
    requires Left(g.cells[n], z.c, f, i)
    modifies g
    ensures Rippling(g, a, n, z, f, 2 + i, {}, i + 1) && g.Steady(old(g.fence), old(g.fenced), old(g.tidy))
    ensures Left(g.cells[n], z.c, f, i + 1)
  {
    hide Building;
    FeedInverter(g, n, i, true, c0, i, a, z, f, {});
    PlanAt(f, i);
    ghost var extra := {} + {(NotAt(i), 0)};
    BothConnect(g, n, w, c0, NotAt(i), i, 1, a, z, f, 1 + i, extra, i);
    ghost var extra1 := extra + Both(SumAt(i), CarryCellAt(i), 1, i < w - 1);
    BothConst(g, n, w, c0, i, 2, false, a, z, f, 1 + i, extra1, i);
    ghost var all := extra1 + Both(SumAt(i), CarryCellAt(i), 2, i < w - 1);
    assert all == Both(SumAt(i), CarryCellAt(i), 1, i < w - 1) + Both(SumAt(i), CarryCellAt(i), 2, i < w - 1)
      + {(NotAt(i), 0)};
    FinishPosition(g, n, c0, i, a, z, f, all);
  }

  /** The carry in of the first position is one. */
  method OneIn(g: Netlist, n: nat, w: nat, c0: nat, ghost a: NL, ghost z: Site, ghost f: Feed)
    requires Rippling(g, a, n, z, f, 0, {}, 0) && c0 == z.c0 && w == f.w
    modifies g
    ensures Rippling(g, a, n, z, f, 1, {}, 0) && g.Steady(old(g.fence), old(g.fenced), old(g.tidy))
    ensures g.cells[n] == old(g.cells[n])
  {
    hide Building;
    PlanAt(f, 0);
    BothConst(g, n, w, c0, 0, 0, true, a, z, f, 0, {}, 0);
    ghost var extra := {} + Both(SumAt(0), CarryCellAt(0), 0, 0 < w - 1);
    forall x: nat, s: nat | x < |SubPlan(f)| && s < |SubPlan(f)[x].slots|
      ensures SubPlan(f)[x].slots[s].round == 0 <==> (x, s) in extra {
      var j := PlanIs(f, x);
    }
    NextRound(g, a, n, z, SubPlan(f), 0, extra, 0);
  }

  /** The last loop: the carry out of each position to the carry in of the next. */
  method CarryLoop(g: Netlist, n: nat, w: nat, c0: nat, ghost a: NL, ghost z: Site, ghost f: Feed)
    requires Rippling(g, a, n, z, f, 1 + w, {}, w) && c0 == z.c0 && w == f.w
    modifies g
    ensures Rippling(g, a, n, z, f, 2 * w, {}, w) && g.Steady(old(g.fence), old(g.fenced), old(g.tidy))
  {
    for i := 1 to w
      invariant Rippling(g, a, n, z, f, w + i, {}, w) && g.Steady(old(g.fence), old(g.fenced), old(g.tidy))
    {
      CarryPosition(g, n, w, c0, i, a, z, f, w + i);
    }
  }

  method CarryPosition(g: Netlist, n: nat, w: nat, c0: nat, i: nat, ghost a: NL, ghost z: Site, ghost f: Feed,
                       ghost r: nat)
    requires Rippling(g, a, n, z, f, r, {}, w) && c0 == z.c0 && w == f.w && 1 <= i < w && r == w + i
    modifies g
    ensures Rippling(g, a, n, z, f, r + 1, {}, w) && g.Steady(old(g.fence), old(g.fenced), old(g.tidy))
  {
    PlanAt(f, i);
    PlanAt(f, i - 1);
    ghost var extra := {} + Both(SumAt(i), CarryCellAt(i), 0, i < w - 1);
    BothConnect(g, n, w, c0, CarryCellAt(i - 1), i, 0, a, z, f, r, {}, w);
    CarryRound(f, i, extra);
    NextRound(g, a, n, z, SubPlan(f), r, extra, w);
  }

  lemma {:induction false} CarryRound(f: Feed, i: nat, extra: set<(nat, nat)>)
    requires 1 <= i < f.w && extra == {} + Both(SumAt(i), CarryCellAt(i), 0, i < f.w - 1)
    ensures RoundIs(SubPlan(f), f.w + i, extra)
  {
    var plan := SubPlan(f);
    forall x: nat, s: nat | x < |plan| && s < |plan[x].slots|
      ensures plan[x].slots[s].round == f.w + i <==> (x, s) in extra {
      var j := PlanIs(f, x);
    }
  }

  // ----- meaning -----

  /** The two words the ripple adds, with carry in one. */
  function WordA(f: Feed, c: Cell, v: Valuation): (r: seq<bool>)
    requires Fits(f, c)
    ensures |r| == f.w
  {
    if f.unary then Not(Resize(Vals(c.ins, v), f.w)) else Resize(Vals(PortA(c), v), f.w)
  }

  function WordB(f: Feed, c: Cell, v: Valuation): (r: seq<bool>)
    requires Fits(f, c)
    ensures |r| == f.w
  {
    if f.unary then Resize([], f.w) else Not(Resize(Vals(PortB(c), v), f.w))
  }

  lemma {:induction false} NegationIsSum(f: Feed, c: Cell, v: Valuation)
    requires Fits(f, c) && f.unary
    ensures WordOf(c, v) == ToBits(ToNat(WordA(f, c, v)) + ToNat(WordB(f, c, v)) + 1, f.w)
  {
    hide Val, Not;
    var x := Vals(c.ins, v);
    assert PortOf(c.inPorts, x, 0) == x;
    var cut: int := ResizeValue(x, f.w);
    NotValue(Resize(x, f.w));
    ZeroValue(f.w);
    ShiftAdd(1, cut, f.w);
    ToBitsCongruent(ToNat(Not(Resize(x, f.w))) + 0 + 1, 0 - ToNat(x), f.w, 1 + cut);
  }

  lemma {:induction false} DifferenceIsSum(f: Feed, c: Cell, v: Valuation)
    requires Fits(f, c) && !f.unary
    ensures WordOf(c, v) == ToBits(ToNat(WordA(f, c, v)) + ToNat(WordB(f, c, v)) + 1, f.w)
  {
    hide Val, Not;
    var x, y := Vals(PortA(c), v), Vals(PortB(c), v);
    PortValues(c, v);
    SubtractBits(x, y, f.w);
  }

  /** What the node computes is that sum. */
  lemma {:induction false} NodeIsSum(f: Feed, c: Cell, v: Valuation)
    requires Fits(f, c)
    ensures WordOf(c, v) == SumBits(WordA(f, c, v), WordB(f, c, v), true)
  {
    hide WordA, WordB, SumBits, WordOf, ToBits, ToNat;
    assert Weight(true, 0) == 1;
    RippleAdds(WordA(f, c, v), WordB(f, c, v), true);
    if f.unary { NegationIsSum(f, c, v); } else { DifferenceIsSum(f, c, v); }
  }

  lemma {:induction false} ZeroValue(w: nat)
    ensures ToNat(Resize([], w)) == 0
  {
    if w > 0 {
      ZeroValue(w - 1);
      assert Resize([], w)[1..] == Resize([], w - 1);
    }
  }

  /** A plus the complement of B plus one is A minus B modulo 2^w. */
  lemma {:induction false} SubtractBits(x: seq<bool>, y: seq<bool>, w: nat)
    ensures ToBits(ToNat(Resize(x, w)) + ToNat(Not(Resize(y, w))) + 1, w) == ToBits(ToNat(x) - ToNat(y), w)
  {
    var kx: int := ResizeValue(x, w);
    var ky: int := ResizeValue(y, w);
    NotValue(Resize(y, w));
    Residue(kx, ky, w);
    ToBitsCongruent(ToNat(Resize(x, w)) + ToNat(Not(Resize(y, w))) + 1, ToNat(x) - ToNat(y), w, 1 - kx + ky);
  }

  lemma {:induction false} Residue(kx: int, ky: int, w: nat)
    ensures Shift(1 - kx + ky, w) == Shift(1, w) - Shift(kx, w) + Shift(ky, w)
  {
    if w > 0 { Residue(kx, ky, w - 1); }
  }

  ghost predicate Done2(cells: seq<Cell>, z: Site, f: Feed, top: nat) {
    Fits(f, z.c) && NetworkOk(cells, z, SubPlan(f), 2 * f.w, {}, f.w, top) && AllRounds(SubPlan(f), 2 * f.w)
  }

  /** The inverter of a position carries the complement of its operand bit. */
  lemma {:induction false} InverterIs(cells: seq<Cell>, z: Site, f: Feed, top: nat, v: Valuation, i: nat)
    requires Done2(cells, z, f, top) && InnerHold(cells, z, SubPlan(f), v) && i < f.w
    requires At(cells, z, NotAt(i)).outs != [] && At(cells, z, NotAt(i)).outs[0].Some?
    ensures Val(SourceNet(cells, z, From(NotAt(i), 0)), v) == !Val(SourceNet(cells, z, Inverted(f, i)), v)
  {
    PlanAt(f, i);
    WiredGate(cells, z, SubPlan(f), 2 * f.w, f.w, top, NotAt(i));
    var k := At(cells, z, NotAt(i));
    assert SubPlan(f)[NotAt(i)].slots[0].src == Inverted(f, i);
    assert Inner(SubPlan(f), NotAt(i)) && Holds(k, v);
    NotHolds(k, SourceNet(cells, z, Inverted(f, i)), v);
  }

  lemma {:induction false} NotHolds(k: Cell, e: Option<nat>, v: Valuation)
    requires k.kind == LogicalNot && k.ins == [e] && |k.outs| == 1 && k.outs[0].Some? && Holds(k, v)
    ensures v(k.outs[0].value) == !Val(e, v)
  {
    assert Vals(k.ins, v) == [Val(e, v)];
    assert Any([Val(e, v)]) == Val(e, v) by { if Val(e, v) { assert [Val(e, v)][0]; } }
  }

  /** The slots of a sum or carry cell. */
  lemma {:induction false} RippleGate(cells: seq<Cell>, z: Site, f: Feed, top: nat, i: nat, x: nat)
    requires Done2(cells, z, f, top) && i < f.w && (x == SumAt(i) || (x == CarryCellAt(i) && i < f.w - 1))
    ensures var k := At(cells, z, x);
      && |k.ins| == 3 && |k.outs| == 1 && k.kind == (if x == SumAt(i) then AdderFunc else CarryFunc)
      && k.ins[0].Some? && k.ins[0] == SourceNet(cells, z, CarrySlot(f, i).src)
      && k.ins[1].Some? && k.ins[1] == SourceNet(cells, z, First(f, i)) && k.ins[2].Some?
        && k.ins[2] == SourceNet(cells, z, Second(f, i))
  {
    PlanAt(f, i);
    WiredGate(cells, z, SubPlan(f), 2 * f.w, f.w, top, x);
    var slots := SubPlan(f)[x].slots;
    assert slots[0].src == CarrySlot(f, i).src && slots[1].src == First(f, i) && slots[2].src == Second(f, i);
  }

  /** The net an inverter reads. */
  lemma {:induction false} InvertedBit(cells: seq<Cell>, z: Site, f: Feed, v: Valuation, i: nat)
    requires Fits(f, z.c) && i < f.w && !v(z.zero)
    ensures Val(SourceNet(cells, z, Inverted(f, i)), v) == if f.unary then Vals(z.c.ins, v)[i]
      else Resize(Vals(PortB(z.c), v), f.w)[i]
  {
  }

  lemma {:induction false} FirstBit(cells: seq<Cell>, z: Site, f: Feed, v: Valuation, i: nat)
    requires Fits(f, z.c) && i < f.w && !v(z.zero) && !f.unary
    ensures Val(SourceNet(cells, z, First(f, i)), v) == Resize(Vals(PortA(z.c), v), f.w)[i]
  {
  }

  /** Both operand bits of a position, as its cells see them. */
  lemma {:induction false} OperandBits(cells: seq<Cell>, z: Site, f: Feed, top: nat, v: Valuation, i: nat, x: nat)
    requires Done2(cells, z, f, top) && InnerHold(cells, z, SubPlan(f), v) && i < f.w && !v(z.zero)
    requires x == SumAt(i) || (x == CarryCellAt(i) && i < f.w - 1)
    ensures |At(cells, z, x).ins| == 3
    ensures Val(At(cells, z, x).ins[1], v) == WordA(f, z.c, v)[i]
    ensures Val(At(cells, z, x).ins[2], v) == WordB(f, z.c, v)[i]
  {
    hide NetworkOk, GatesOk, CarrySpec;
    RippleGate(cells, z, f, top, i, x);
    InverterIs(cells, z, f, top, v, i);
    InvertedBit(cells, z, f, v, i);
    if !f.unary { FirstBit(cells, z, f, v, i); }
  }

  lemma {:induction false} CarryOutIs(k: Cell, v: Valuation, e: nat)
    requires k.kind == CarryFunc && |k.ins| == 3 && k.outs == [Some(e)] && Holds(k, v)
    ensures v(e) == Maj(Val(k.ins[1], v), Val(k.ins[2], v), Val(k.ins[0], v))
  {
    assert k.outs[0].Some?;
  }

  lemma {:induction false} CarryInner(cells: seq<Cell>, z: Site, f: Feed, v: Valuation, i: nat)
    requires Fits(f, z.c) && InnerHold(cells, z, SubPlan(f), v) && i + 1 < f.w
    ensures CarryCellAt(i) < |SubPlan(f)| && Holds(At(cells, z, CarryCellAt(i)), v)
  {
    hide Holds, At;
    PlanAt(f, i);
    assert Inner(SubPlan(f), CarryCellAt(i));
  }

  /** The carry cell before position `i` drives its carry in. */
  lemma {:induction false} CarryLink(cells: seq<Cell>, z: Site, f: Feed, top: nat, v: Valuation, i: nat,
                                     x: nat) returns (e: nat)
    requires Done2(cells, z, f, top) && InnerHold(cells, z, SubPlan(f), v) && 0 < i < f.w
    requires (x == SumAt(i) || (x == CarryCellAt(i) && i < f.w - 1))
    ensures |At(cells, z, x).ins| == 3 && At(cells, z, x).ins[0] == Some(e)
    ensures var k := At(cells, z, CarryCellAt(i - 1)); k.kind == CarryFunc && |k.ins| == 3 && k.outs == [Some(e)] && Holds(k, v)
  {
    hide Holds, Fits, NotAt, SubPlan, InnerHold;
    var y := CarryCellAt(i - 1);
    RippleGate(cells, z, f, top, i, x);
    RippleGate(cells, z, f, top, i - 1, y);
    CarryInner(cells, z, f, v, i - 1);
    e := At(cells, z, x).ins[0].value;
    assert At(cells, z, y).outs == [Some(e)];
  }

  /** The carry into a position. */
  lemma {:induction false} CarryIs(cells: seq<Cell>, z: Site, f: Feed, top: nat, v: Valuation, i: nat, x: nat)
    requires Done2(cells, z, f, top) && InnerHold(cells, z, SubPlan(f), v) && i < f.w && !v(z.zero) && v(z.one)
    requires x == SumAt(i) || (x == CarryCellAt(i) && i < f.w - 1)
    ensures |At(cells, z, x).ins| == 3
    ensures Val(At(cells, z, x).ins[0], v) == CarryAt(WordA(f, z.c, v), WordB(f, z.c, v), true, i)
  {
    hide Done2, SumSpec, NetworkOk, CarrySpec, SumAt, SubPlan, Fits, CarryCellAt;
    if i == 0 {
      RippleGate(cells, z, f, top, i, x);
    } else {
      var y := CarryCellAt(i - 1);
      OperandBits(cells, z, f, top, v, i - 1, y);
      CarryIs(cells, z, f, top, v, i - 1, y);
      var e := CarryLink(cells, z, f, top, v, i, x);
      CarryOutIs(At(cells, z, y), v, e);
    }
  }

  lemma {:induction false} SumWord(k: Cell, v: Valuation)
    requires k.kind == AdderFunc && |k.ins| == 3
    ensures WordOf(k, v) == [Xor3(Val(k.ins[1], v), Val(k.ins[2], v), Val(k.ins[0], v))]
  {
    Parity3(Vals(k.ins, v));
  }

  lemma {:induction false} SumsRight(cells: seq<Cell>, z: Site, f: Feed, top: nat, v: Valuation)
    requires Done2(cells, z, f, top) && InnerHold(cells, z, SubPlan(f), v) && !v(z.zero) && v(z.one)
    ensures TakersRight(cells, z, SubPlan(f), v)
  {
    var plan := SubPlan(f);
    NodeIsSum(f, z.c, v);
    forall x: nat {:trigger At(cells, z, x)} | x < |plan| && plan[x].takes.Some? && plan[x].takes.value < |z.c.outs|
      ensures WordOf(At(cells, z, x), v) == [WordOf(z.c, v)[plan[x].takes.value]]
    {
      var i := PlanIs(f, x);
      OperandBits(cells, z, f, top, v, i, x);
      CarryIs(cells, z, f, top, v, i, x);
      WiredGate(cells, z, plan, 2 * f.w, f.w, top, x);
      SumWord(At(cells, z, x), v);
    }
  }

  // ----- the operations -----

  lemma {:induction false} SubLowers(a: NL, b: NL, n: nat, z: Site, f: Feed)
    requires WellFormed(a) && n < |a.cells| && z == SiteOf(a, n) && b == a.(cells := b.cells, nets := b.nets)
    requires a.nets <= b.nets && Fits(f, z.c)
    requires NetworkOk(b.cells, z, SubPlan(f), 2 * f.w, {}, f.w, b.nets) && OtherCells(a.cells, b.cells, n)
    requires NodeLeft(b.cells[n], z.c, f.w)
    ensures Lowers(a, b) && WellFormed(b) && Undriving(b.cells[n])
  {
    PlanFits(z, f);
    PlanRanked(f);
    assert InRange(z.c, z.base);
    forall v: Valuation | Constants(a.zero, a.one, v) && InnerHold(b.cells, z, SubPlan(f), v)
      ensures TakersRight(b.cells, z, SubPlan(f), v) {
      SumsRight(b.cells, z, f, b.nets, v);
    }
    NetworkLowers(a, b, n, z, SubPlan(f), Ranks(f), 2 * f.w, SumIds(f));
  }

  /** Everything before the operand loop. */
  method BeginRipple(g: Netlist, n: nat, w: nat, c0: nat, ghost a: NL, ghost z: Site, ghost f: Feed)
    requires g.Ready() && n < |g.cells| && a == g.Meaning() && z == SiteOf(a, n) && Fits(f, z.c) && w == f.w
    requires c0 == z.c0
    modifies g
    ensures Rippling(g, a, n, z, f, 1, {}, 0) && g.Steady(old(g.fence), old(g.fenced), old(g.tidy)) && g.cells[n] == z.c
  {
    ghost var plan := SubPlan(f);
    assert a.cells + Blanks(plan[..0]) == a.cells;
    CreateRipple(g, w, a, plan, f);
    PlanFits(z, f);
    Created(g, a, n, z, plan);
    assert g.cells[n] == z.c;
    OneIn(g, n, w, c0, a, z, f);
  }

  predicate SubNode(c: Cell) {
    |c.inPorts| == 2 && Fits(Feed(|c.outs|, c.inPorts[0].width, c.inPorts[1].width, false), c)
  }

  /** The operand may be wider than the result; its high pins then stay on the node. */
  predicate NegNode(c: Cell) {
    |c.inPorts| == 1 && Fits(Feed(|c.outs|, |c.ins|, 0, true), c)
  }

  /** A two-operand subtraction, whatever the widths: afterwards the netlist behaves as before. */
  method InstantiateSubWCarry(g: Netlist, n: nat)
    requires g.Ready() && WellFormed(g.Meaning()) && n < |g.cells| && SubNode(g.cells[n])
    modifies g
    ensures g.Ready() && WellFormed(g.Meaning()) && g.Steady(old(g.fence), old(g.fenced), old(g.tidy))
    ensures OtherCells(old(g.cells), g.cells, n) && Undriving(g.cells[n]) && Lowers(old(g.Meaning()), g.Meaning())
  {
    ghost var a, z := g.Meaning(), SiteOf(g.Meaning(), n);
    assert NodeOk(g.nodes[n], g.pins, n, g.cells[n]);
    var w, wa, wb, c0 := g.nodes[n].outPorts[0], g.nodes[n].inPorts[0].width, g.nodes[n].inPorts[1].width, |g.nodes|;
    ghost var f := Feed(w, wa, wb, false);
    BeginRipple(g, n, w, c0, a, z, f);
    for i := 0 to w
      invariant Rippling(g, a, n, z, f, 1 + i, {}, i) && Left(g.cells[n], z.c, f, i)
      invariant g.Steady(old(g.fence), old(g.fenced), old(g.tidy))
    {
      SubPosition(g, n, w, wa, wb, c0, i, a, z, f);
    }
    CarryLoop(g, n, w, c0, a, z, f);
    SubLowers(a, g.Meaning(), n, z, f);
  }

  /** A negation, of an operand at least as wide as the result. */
  method InstantiateUnarySub(g: Netlist, n: nat)
    requires g.Ready() && WellFormed(g.Meaning()) && n < |g.cells| && NegNode(g.cells[n])
    modifies g
    ensures g.Ready() && WellFormed(g.Meaning()) && g.Steady(old(g.fence), old(g.fenced), old(g.tidy))
    ensures OtherCells(old(g.cells), g.cells, n) && Undriving(g.cells[n]) && Lowers(old(g.Meaning()), g.Meaning())
  {
    ghost var a, z := g.Meaning(), SiteOf(g.Meaning(), n);
    assert NodeOk(g.nodes[n], g.pins, n, g.cells[n]);
    var w, c0 := g.nodes[n].outPorts[0], |g.nodes|;
    ghost var f := Feed(w, |g.cells[n].ins|, 0, true);
    BeginRipple(g, n, w, c0, a, z, f);
    for i := 0 to w
      invariant Rippling(g, a, n, z, f, 1 + i, {}, i) && Left(g.cells[n], z.c, f, i)
      invariant g.Steady(old(g.fence), old(g.fenced), old(g.tidy))
    {
      NegPosition(g, n, w, c0, i, a, z, f);
    }
    CarryLoop(g, n, w, c0, a, z, f);
    SubLowers(a, g.Meaning(), n, z, f);
  }
}
