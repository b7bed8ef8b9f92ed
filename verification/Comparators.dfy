/** instantiate_GT and instantiate_GE: the order comparisons. */
module Comparators {
  import opened Wrappers
  import opened Bits
  import opened Semantics
  import opened Runs
  import opened Netlists
  import opened RippleCells
  import opened RippleBuild
  import opened Networks
  import opened BitwiseGates
  import opened Equality

  // ----- when is one word greater than another -----

  /** Some higher bit differs. */
  predicate HigherDiffers(a: seq<bool>, b: seq<bool>, i: nat)
    requires |a| == |b|
  {
    exists j :: i < j < |a| && a[j] != b[j]
  }

  predicate Exceeds(a: seq<bool>, b: seq<bool>)
    requires |a| == |b|
  {
    exists i: nat {:trigger HigherDiffers(a, b, i)} :: i < |a| && a[i] && !b[i] && !HigherDiffers(a, b, i)
  }

  lemma {:induction false} ExceedsLast(a: seq<bool>, b: seq<bool>)
    requires |a| == |b| > 0
    ensures var k := |a| - 1;
      Exceeds(a, b) == if a[k] == b[k] then Exceeds(a[..k], b[..k]) else a[k]
  {
    var k := |a| - 1;
    if a[k] == b[k] {
      forall i: nat {:trigger HigherDiffers(a, b, i)} | i < k
        ensures HigherDiffers(a, b, i) == HigherDiffers(a[..k], b[..k], i) {
        if HigherDiffers(a, b, i) {
          var j :| i < j < |a| && a[j] != b[j];
          assert a[..k][j] != b[..k][j];
        }
        if HigherDiffers(a[..k], b[..k], i) {
          var j :| i < j < k && a[..k][j] != b[..k][j];
          assert a[j] != b[j];
        }
      }
      if Exceeds(a[..k], b[..k]) {
        var i: nat :| i < k && a[..k][i] && !b[..k][i] && !HigherDiffers(a[..k], b[..k], i);
        assert !HigherDiffers(a, b, i);
      }
      if Exceeds(a, b) {
        var i: nat :| i < |a| && a[i] && !b[i] && !HigherDiffers(a, b, i);
        assert !HigherDiffers(a[..k], b[..k], i);
      }
    } else {
      assert !HigherDiffers(a, b, k);
      forall i: nat {:trigger HigherDiffers(a, b, i)} | i < k ensures HigherDiffers(a, b, i) { assert a[k] != b[k]; }
    }
  }

  /** The highest bit in which two words differ decides. */
  lemma {:induction false} ExceedsIsGreater(a: seq<bool>, b: seq<bool>)
    requires |a| == |b|
    ensures Exceeds(a, b) <==> ToNat(a) > ToNat(b)
    decreases |a|
  {
    if |a| > 0 {
      var k := |a| - 1;
      ExceedsIsGreater(a[..k], b[..k]);
      ExceedsLast(a, b);
      SplitLast(a, |a|);
      SplitLast(b, |b|);
      assert a[..|a|] == a && b[..|b|] == b;
      ToNatBound(a[..k]);
      ToNatBound(b[..k]);
      ShiftOne(k);
    }
  }

  // ----- the plan -----

  predicate OrderNode(c: Cell, w: nat) {
    (c.kind.Gt? || c.kind.Lt?) && CompareNode(c, w)
  }

  function GtAt(i: nat): nat { 2 + 2 * i }
  function OrAt(i: nat): nat { 3 + 2 * i }

  /** Operand pins that reach the first and second input of the comparison cell of a position; less-than swaps them. */
  function FirstPin(w: nat, swap: bool, i: nat): nat { if swap then w + i else i }
  function SecondPin(w: nat, swap: bool, i: nat): nat { if swap then i else w + i }

  function XorSlots(w: nat): (r: seq<Slot>)
    requires w >= 1
    ensures |r| == 2 * (w - 1)
    ensures forall s {:trigger r[s]} :: 0 <= s < |r| ==>
      r[s] == if s < w - 1 then Slot(Operand(s + 1), s + 1) else Slot(Operand(s + 2), s + 2 - w)
  {
    seq(2 * (w - 1), (s: nat) => if s < w - 1 then Slot(Operand(s + 1), s + 1)
      else Slot(Operand(s + 2), if s + 2 >= w then s + 2 - w else 0))
  }

  function FinalSlots(w: nat): (r: seq<Slot>)
    ensures |r| == w
    ensures forall s {:trigger r[s]} :: 0 <= s < w ==> r[s] == Slot(From(GtAt(s), 0), s)
  {
    seq(w, (s: nat) => Slot(From(GtAt(s), 0), s))
  }

  function XorSpec(w: nat): Spec
    requires w >= 1
  {
    Spec(BitwiseXor, [Port(Plain, w - 1), Port(Plain, w - 1)], XorSlots(w), [w - 1], w - 1, None)
  }

  function FinalSpec(w: nat): Spec { Spec(LogicalOr, [Port(Plain, w)], FinalSlots(w), [1], 1, Some(0)) }

  function GtSpec(w: nat, swap: bool, i: nat): Spec {
    Spec(Gt, [Bit1, Bit1, Bit1], [Slot(Operand(FirstPin(w, swap, i)), i), Slot(Operand(SecondPin(w, swap, i)), i),
         Slot(if i + 1 < w then From(OrAt(i), 0) else Const0, i)], [1], 1, None)
  }

  function OrSpec(w: nat, i: nat): Spec {
    Spec(LogicalOr, [Bit1, Bit1], [Slot(From(0, i), i), Slot(if i + 2 < w then From(OrAt(i + 1), 0) else Const0, i)],
      [1], 1, None)
  }

  function GtPlan(w: nat, swap: bool): (r: seq<Spec>)
    requires w >= 1
    ensures |r| == 2 * w + 1
  {
    [XorSpec(w), FinalSpec(w)]
      + seq(2 * w - 1, (x: nat) => if x % 2 == 0 then GtSpec(w, swap, x / 2) else OrSpec(w, x / 2))
  }

  lemma {:induction false} PlanAt(w: nat, swap: bool, i: nat)
    requires i < w
    ensures var plan := GtPlan(w, swap);
      plan[0] == XorSpec(w) && plan[1] == FinalSpec(w) && plan[GtAt(i)] == GtSpec(w, swap, i) && (i < w - 1 ==>
        plan[OrAt(i)] == OrSpec(w, i))
  {
  }

  lemma {:induction false} PlanIs(w: nat, swap: bool, x: nat) returns (i: nat)
    requires w >= 1 && x < |GtPlan(w, swap)|
    ensures i < w
    ensures var spec := GtPlan(w, swap)[x];
      || (x == 0 && spec == XorSpec(w)) || (x == 1 && spec == FinalSpec(w))
      || (x == GtAt(i) && spec == GtSpec(w, swap, i)) || (x == OrAt(i) && i < w - 1 && spec == OrSpec(w, i))
  {
    i := if x < 2 then 0 else (x - 2) / 2;
  }

  function Ranks(w: nat): (r: seq<nat>)
    requires w >= 1
    ensures |r| == 2 * w + 1
    ensures forall x {:trigger r[x]} :: 0 <= x < |r| ==>
      r[x] == if x < 2 then 0 else if x % 2 == 0 then w + 1 else w - (x - 3) / 2
  {
    seq(2 * w + 1, (x: nat) => if x < 2 then 0 else if x % 2 == 0 then w + 1
      else if (x - 3) / 2 <= w then w - (x - 3) / 2 else 0)
  }

  lemma {:induction false} PlanFits(z: Site, w: nat, swap: bool)
    requires OrderNode(z.c, w) && w >= 1
    ensures var plan := GtPlan(w, swap); TakesFit(z, plan) && OneTaker(plan) && TakersLast(plan) && AllRounds(plan, w) && AllTaken(z, plan, [1])
  {
    hide GtPlan;
    var plan := GtPlan(w, swap);
    forall x: nat {:trigger plan[x]} | x < |plan|
      ensures plan[x].takes.Some? <==> x == 1
      ensures forall s {:trigger plan[x].slots[s]} :: 0 <= s < |plan[x].slots| ==> plan[x].slots[s].round < w
      ensures forall s {:trigger plan[x].slots[s]} :: 0 <= s < |plan[x].slots| && plan[x].slots[s].src.From? ==>
        plan[x].slots[s].src.o < |plan| && plan[x].slots[s].src.o != 1
    {
      var i := PlanIs(w, swap, x);
      PlanAt(w, swap, i);
    }
    PlanAt(w, swap, 0);
  }

  lemma {:induction false} PlanRanked(w: nat, swap: bool)
    requires w >= 1
    ensures Ranked(GtPlan(w, swap), Ranks(w))
  {
    hide GtPlan;
    var plan, rank := GtPlan(w, swap), Ranks(w);
    forall x: nat {:trigger plan[x]} | x < |plan|
      ensures Combinational(plan[x].kind) && (plan[x].takes.Some? <==> x == 1) { var i := PlanIs(w, swap, x); }
    forall x, s {:trigger plan[x].slots[s]} | 0 <= x < |plan| && Inner(plan, x) && 0 <= s < |plan[x].slots|
      && plan[x].slots[s].src.From?
      ensures Inner(plan, plan[x].slots[s].src.o) && rank[plan[x].slots[s].src.o] < rank[x]
    {
      var i := PlanIs(w, swap, x);
    }
  }

  // ----- building -----

  ghost predicate Comparing(g: Netlist, a: NL, n: nat, z: Site, w: nat, swap: bool, i: nat, extra: set<(nat, nat)>,
                            d: nat)
    reads g
  {
    w >= 1 && OrderNode(z.c, w) && swap == z.c.kind.Lt? && Building(g, a, n, z, GtPlan(w, swap), i, extra, d)
  }

  method CreateOrder(g: Netlist, w: nat, ghost swap: bool, ghost a: NL, ghost plan: seq<Spec>)
    requires Creating(g, a, plan, 0) && w >= 1 && plan == GtPlan(w, swap)
    modifies g
    ensures Creating(g, a, plan, |plan|) && g.Steady(old(g.fence), old(g.fenced), old(g.tidy))
  {
    PlanAt(w, swap, 0);
    CreateGate(g, BitwiseXor, [Port(Plain, w - 1), Port(Plain, w - 1)], 2 * (w - 1), [w - 1], w - 1, a, plan, 0);
    CreateGate(g, LogicalOr, [Port(Plain, w)], w, [1], 1, a, plan, 1);
    for i := 0 to w
      invariant Creating(g, a, plan, if i < w then 2 + 2 * i else 2 * w + 1)
      invariant g.Steady(old(g.fence), old(g.fenced), old(g.tidy))
    {
      CreatePair(g, w, i, swap, a, plan);
    }
  }

  method CreatePair(g: Netlist, w: nat, i: nat, ghost swap: bool, ghost a: NL, ghost plan: seq<Spec>)
    requires Creating(g, a, plan, 2 + 2 * i) && w >= 1 && i < w && plan == GtPlan(w, swap)
    modifies g
    ensures Creating(g, a, plan, if i + 1 < w then 2 + 2 * (i + 1) else 2 * w + 1)
    ensures g.Steady(old(g.fence), old(g.fenced), old(g.tidy))
  {
    PlanAt(w, swap, i);
    CreateGate(g, Gt, [Bit1, Bit1, Bit1], 3, [1], 1, a, plan, 2 + 2 * i);
    if i < w - 1 {
      CreateGate(g, LogicalOr, [Bit1, Bit1], 2, [1], 1, a, plan, 3 + 2 * i);
    }
  }

  /** The input of the difference gate that an operand pin is copied to. */
  function XorPos(w: nat, k: nat): nat {
    if k < w then (if k > 0 then k - 1 else 0) else if k >= 2 then k - 2 else 0
  }

  ghost function OperandSet(w: nat, i: nat, s: nat, k: nat): set<(nat, nat)> {
    {(GtAt(i), s)} + (if i > 0 then {(0, XorPos(w, k))} else {})
  }

  /** Operand pin `k` goes to the comparison cell of its position and, above the lowest, a copy to the difference
      gate. */
  method OrderOperand(g: Netlist, n: nat, w: nat, c0: nat, i: nat, s: nat, k: nat, ghost a: NL, ghost z: Site,
                      ghost swap: bool, ghost extra: set<(nat, nat)>)
    requires Comparing(g, a, n, z, w, swap, i, extra, 0) && c0 == z.c0 && i < w
    requires (s == 0 && k == FirstPin(w, swap, i)) || (s == 1 && k == SecondPin(w, swap, i))
    requires (GtAt(i), s) !in extra && (0, XorPos(w, k)) !in extra && |g.cells[n].ins| == 2 * w
    requires g.cells[n].ins[k] == z.c.ins[k]
    modifies g
    ensures Comparing(g, a, n, z, w, swap, i, extra + OperandSet(w, i, s, k), 0)
    ensures g.Steady(old(g.fence), old(g.fenced), old(g.tidy))
    ensures |old(g.cells[n].ins)| == 2 * w && g.cells[n] == old(g.cells[n]).(ins := old(g.cells[n].ins)[k := None])
  {
    hide Building, GtPlan;
    PlanAt(w, swap, i);
    ghost var plan := GtPlan(w, swap);
    MoveOperand(g, n, k, c0, GtAt(i), s, a, z, plan, i, extra, 0);
    ghost var extra1 := extra + {(GtAt(i), s)};
    if i > 0 {
      assert XorSlots(w)[XorPos(w, k)] == Slot(Operand(k), i);
      CopyOperand(g, n, GtAt(i), s, c0, 0, XorPos(w, k), a, z, plan, i, extra1, 0, Operand(k));
      assert extra1 + {(0, XorPos(w, k))} == extra + OperandSet(w, i, s, k);
    } else {
      assert extra1 == extra + OperandSet(w, i, s, k);
    }
  }

  ghost function ChainSet(w: nat, i: nat): set<(nat, nat)> {
    {(GtAt(i), 2)} + (if i + 1 < w then {(OrAt(i), 0), (OrAt(i), 1)} else {})
  }

  /** The chain cell of a position: fed by the cell above, or a zero, and by the difference gate. */
  method ChainInputs(g: Netlist, n: nat, w: nat, c0: nat, i: nat, ghost a: NL, ghost z: Site, ghost swap: bool,
                     ghost extra: set<(nat, nat)>)
    requires Comparing(g, a, n, z, w, swap, i, extra, 0) && c0 == z.c0 && i < w - 1 && (OrAt(i), 0) !in extra
    requires (OrAt(i), 1) !in extra
    modifies g
    ensures Comparing(g, a, n, z, w, swap, i, extra + {(OrAt(i), 1)} + {(OrAt(i), 0)}, 0)
    ensures g.Steady(old(g.fence), old(g.fenced), old(g.tidy)) && g.cells[n] == old(g.cells[n])
  {
    hide Building, NetworkOk, GtPlan;
    PlanAt(w, swap, i);
    PlanAt(w, swap, i + 1);
    ghost var plan := GtPlan(w, swap);
    if i < w - 2 {
      Connect(g, n, OrAt(i + 1), 0, c0, OrAt(i), 1, a, z, plan, i, extra, 0);
    } else {
      AttachConst(g, n, false, c0, OrAt(i), 1, a, z, plan, i, extra, 0);
    }
    Connect(g, n, 0, i, c0, OrAt(i), 0, a, z, plan, i, extra + {(OrAt(i), 1)}, 0);
  }

  /** The chain of a position, up to its comparison cell. */
  method OrderChain(g: Netlist, n: nat, w: nat, c0: nat, i: nat, ghost a: NL, ghost z: Site, ghost swap: bool,
                    ghost extra: set<(nat, nat)>)
    requires Comparing(g, a, n, z, w, swap, i, extra, 0) && c0 == z.c0 && i < w && (GtAt(i), 2) !in extra
    requires (OrAt(i), 0) !in extra && (OrAt(i), 1) !in extra
    modifies g
    ensures Comparing(g, a, n, z, w, swap, i, extra + ChainSet(w, i), 0)
    ensures g.Steady(old(g.fence), old(g.fenced), old(g.tidy)) && g.cells[n] == old(g.cells[n])
  {
    hide Building;
    PlanAt(w, swap, i);
    ghost var plan := GtPlan(w, swap);
    if i < w - 1 {
      ChainInputs(g, n, w, c0, i, a, z, swap, extra);
      ghost var extra2 := extra + {(OrAt(i), 1)} + {(OrAt(i), 0)};
      Connect(g, n, OrAt(i), 0, c0, GtAt(i), 2, a, z, plan, i, extra2, 0);
      assert extra2 + {(GtAt(i), 2)} == extra + ChainSet(w, i);
    } else {
      AttachConst(g, n, false, c0, GtAt(i), 2, a, z, plan, i, extra, 0);
      assert extra + {(GtAt(i), 2)} == extra + ChainSet(w, i);
    }
  }

  ghost function RoundSet(w: nat, swap: bool, i: nat): set<(nat, nat)> {
    {} + OperandSet(w, i, 0, FirstPin(w, swap, i)) + OperandSet(w, i, 1, SecondPin(w, swap, i)) + ChainSet(w, i)
      + {(1, i)}
  }

  lemma {:induction false} XorRound(w: nat, swap: bool, i: nat, s: nat)
    requires w >= 1 && i < w && s < |XorSpec(w).slots|
    ensures XorSpec(w).slots[s].round == i <==> (0, s) in RoundSet(w, swap, i)
  {
  }

  lemma {:induction false} FinalRound(w: nat, swap: bool, i: nat, s: nat)
    requires w >= 1 && i < w && s < |FinalSpec(w).slots|
    ensures FinalSpec(w).slots[s].round == i <==> (1, s) in RoundSet(w, swap, i)
  {
  }

  lemma {:induction false} GtRound(w: nat, swap: bool, i: nat, j: nat, s: nat)
    requires w >= 1 && i < w && j < w && s < |GtSpec(w, swap, j).slots|
    ensures GtSpec(w, swap, j).slots[s].round == i <==> (GtAt(j), s) in RoundSet(w, swap, i)
  {
    hide XorSpec, XorPos, FinalSpec, OrSpec;
  }

  lemma {:induction false} OrRound(w: nat, swap: bool, i: nat, j: nat, s: nat)
    requires w >= 1 && i < w && j < w - 1 && s < |OrSpec(w, j).slots|
    ensures OrSpec(w, j).slots[s].round == i <==> (OrAt(j), s) in RoundSet(w, swap, i)
  {
    hide XorSpec, XorPos, FinalSpec, GtSpec;
  }

  lemma {:induction false} RoundOf(w: nat, swap: bool, i: nat)
    requires w >= 1 && i < w
    ensures RoundIs(GtPlan(w, swap), i, RoundSet(w, swap, i))
  {
    hide GtPlan, RoundSet, XorSpec, FinalSpec, GtSpec, OrSpec;
    var plan, extra := GtPlan(w, swap), RoundSet(w, swap, i);
    forall x: nat, s: nat | x < |plan| && s < |plan[x].slots| ensures plan[x].slots[s].round == i <==> (x, s) in extra {
      var j := PlanIs(w, swap, x);
      if x == 0 && plan[x] == XorSpec(w) {
        XorRound(w, swap, i, s);
      } else if x == 1 && plan[x] == FinalSpec(w) {
        FinalRound(w, swap, i, s);
      } else if x == GtAt(j) && plan[x] == GtSpec(w, swap, j) {
        GtRound(w, swap, i, j, s);
      } else {
        OrRound(w, swap, i, j, s);
      }
    }
  }

  /** The operand pins of a position. */
  method OrderOperands(g: Netlist, n: nat, w: nat, less: bool, c0: nat, i: nat, ghost a: NL, ghost z: Site)
    requires Comparing(g, a, n, z, w, less, i, {}, 0) && c0 == z.c0 && i < w && From2(g.cells[n], z.c, w, i)
    modifies g
    ensures Comparing(g, a, n, z, w, less, i,
      {} + OperandSet(w, i, 0, FirstPin(w, less, i)) + OperandSet(w, i, 1, SecondPin(w, less, i)), 0)
    ensures g.Steady(old(g.fence), old(g.fenced), old(g.tidy)) && From2(g.cells[n], z.c, w, i + 1)
  {
    OrderOperand(g, n, w, c0, i, 0, FirstPin(w, less, i), a, z, less, {});
    OrderOperand(g, n, w, c0, i, 1, SecondPin(w, less, i), a, z, less, {} + OperandSet(w, i, 0, FirstPin(w, less, i)));
  }

  /** One round of the loop. */
  method OrderPosition(g: Netlist, n: nat, w: nat, less: bool, c0: nat, i: nat, ghost a: NL, ghost z: Site)
    requires Comparing(g, a, n, z, w, less, i, {}, 0) && c0 == z.c0 && i < w && From2(g.cells[n], z.c, w, i)
    modifies g
    ensures Comparing(g, a, n, z, w, less, i + 1, {}, 0) && g.Steady(old(g.fence), old(g.fenced), old(g.tidy))
    ensures From2(g.cells[n], z.c, w, i + 1)
  {
    ghost var extra := {} + OperandSet(w, i, 0, FirstPin(w, less, i)) + OperandSet(w, i, 1, SecondPin(w, less, i));
    OrderOperands(g, n, w, less, c0, i, a, z);
    OrderChain(g, n, w, c0, i, a, z, less, extra);
    OrderFinal(g, n, w, c0, i, a, z, less, extra + ChainSet(w, i));
  }

  /** The comparison cell of a position to the final gate. */
  method OrderFinal(g: Netlist, n: nat, w: nat, c0: nat, i: nat, ghost a: NL, ghost z: Site, ghost swap: bool,
                    ghost extra: set<(nat, nat)>)
    requires Comparing(g, a, n, z, w, swap, i, extra, 0) && c0 == z.c0 && i < w
    requires extra + {(1, i)} == RoundSet(w, swap, i) && (1, i) !in extra
    modifies g
    ensures Comparing(g, a, n, z, w, swap, i + 1, {}, 0) && g.Steady(old(g.fence), old(g.fenced), old(g.tidy))
    ensures g.cells[n] == old(g.cells[n])
  {
    PlanAt(w, swap, i);
    Connect(g, n, GtAt(i), 0, c0, 1, i, a, z, GtPlan(w, swap), i, extra, 0);
    RoundOf(w, swap, i);
    NextRound(g, a, n, z, GtPlan(w, swap), i, RoundSet(w, swap, i), 0);
  }

  // ----- meaning -----

  ghost predicate OrderDone(cells: seq<Cell>, z: Site, w: nat, swap: bool, top: nat) {
    w >= 1 && OrderNode(z.c, w) && swap == z.c.kind.Lt? && NetworkOk(cells, z, GtPlan(w, swap), w, {}, 1, top)
      && AllRounds(GtPlan(w, swap), w)
  }

  /** The difference gate compares the operands above bit 0. */
  lemma {:induction false} XorCell(cells: seq<Cell>, z: Site, w: nat, swap: bool, top: nat)
    requires OrderDone(cells, z, w, swap, top)
    ensures var x := At(cells, z, 0);
      && BitwiseNode(x) && x.kind == BitwiseXor && |x.outs| == w - 1
      && forall j {:trigger x.ins[j]} :: 0 <= j < w - 1 ==>
        x.ins[j] == z.c.ins[j + 1] && x.ins[w - 1 + j] == z.c.ins[w + j + 1]
  {
    var plan, x := GtPlan(w, swap), At(cells, z, 0);
    PlanAt(w, swap, 0);
    WiredGate(cells, z, plan, w, 1, top, 0);
    forall j: nat | j < w - 1 ensures x.outs[j].Some? { OrCell(cells, z, w, swap, top, j); }
    forall j: nat {:trigger x.ins[j]} | j < w - 1
      ensures x.ins[j] == z.c.ins[j + 1] && x.ins[w - 1 + j] == z.c.ins[w + j + 1] {
      assert plan[0].slots[j].src == Operand(j + 1) && plan[0].slots[w - 1 + j].src == Operand(w + j + 1);
    }
  }

  lemma {:induction false} OrCell(cells: seq<Cell>, z: Site, w: nat, swap: bool, top: nat, i: nat)
    requires OrderDone(cells, z, w, swap, top) && i < w - 1
    ensures var y := At(cells, z, OrAt(i));
      && |y.ins| == 2 && y == Cell(LogicalOr, y.ins, y.outs, [Bit1, Bit1], [1]) && |y.outs| == 1
      && y.ins[0].Some? && y.ins[0] == SourceNet(cells, z, From(0, i))
        && y.ins[1] == SourceNet(cells, z, if i + 2 < w then From(OrAt(i + 1), 0) else Const0)
    ensures i < |At(cells, z, 0).outs| && At(cells, z, 0).outs[i].Some?
  {
    PlanAt(w, swap, i);
    WiredGate(cells, z, GtPlan(w, swap), w, 1, top, OrAt(i));
    WiredGate(cells, z, GtPlan(w, swap), w, 1, top, 0);
    assert GtPlan(w, swap)[OrAt(i)].slots[0].src == From(0, i);
    assert GtPlan(w, swap)[OrAt(i)].slots[1].src == if i + 2 < w then From(OrAt(i + 1), 0) else Const0;
  }

  lemma {:induction false} GtCell(cells: seq<Cell>, z: Site, w: nat, swap: bool, top: nat, i: nat)
    requires OrderDone(cells, z, w, swap, top) && i < w
    ensures var k := At(cells, z, GtAt(i));
      && |k.ins| == 3 && k == Cell(Gt, k.ins, k.outs, [Bit1, Bit1, Bit1], [1]) && |k.outs| == 1
      && k.ins[0] == z.c.ins[FirstPin(w, swap, i)] && k.ins[1] == z.c.ins[SecondPin(w, swap, i)] && k.ins[2].Some?
      && k.ins[2] == SourceNet(cells, z, if i + 1 < w then From(OrAt(i), 0) else Const0)
  {
    PlanAt(w, swap, i);
    WiredGate(cells, z, GtPlan(w, swap), w, 1, top, GtAt(i));
    var slots := GtPlan(w, swap)[GtAt(i)].slots;
    assert slots[0].src == Operand(FirstPin(w, swap, i)) && slots[1].src == Operand(SecondPin(w, swap, i));
    assert slots[2].src == if i + 1 < w then From(OrAt(i), 0) else Const0;
  }

  lemma {:induction false} OrHolds(y: Cell, v: Valuation)
    requires |y.ins| == 2 && y.kind == LogicalOr && y.inPorts == [Bit1, Bit1] && |y.outs| == 1 && y.outs[0].Some?
    requires Holds(y, v)
    ensures Val(y.outs[0], v) == (Val(y.ins[0], v) || Val(y.ins[1], v))
  {
    assert y.ins == [y.ins[0], y.ins[1]];
    TwoInputGate(y, y.ins[0], y.ins[1], v);
  }

  lemma {:induction false} HigherStep(a: seq<bool>, b: seq<bool>, i: nat)
    requires |a| == |b| && i + 1 < |a|
    ensures HigherDiffers(a, b, i) == (a[i + 1] != b[i + 1] || HigherDiffers(a, b, i + 1))
  {
    if HigherDiffers(a, b, i) && a[i + 1] == b[i + 1] {
      var j :| i < j < |a| && a[j] != b[j];
      assert i + 1 < j;
    }
  }

  /** The difference gate says where the operands differ. */
  lemma {:induction false} DifferenceBit(cells: seq<Cell>, z: Site, w: nat, swap: bool, top: nat, v: Valuation, i: nat)
    requires OrderDone(cells, z, w, swap, top) && InnerHold(cells, z, GtPlan(w, swap), v) && i < w - 1
    ensures Val(SourceNet(cells, z, From(0, i)), v) == (Vals(PortA(z.c), v)[i + 1] != Vals(PortB(z.c), v)[i + 1])
  {
    hide Combinational;
    var x := At(cells, z, 0);
    XorCell(cells, z, w, swap, top);
    PlanAt(w, swap, 0);
    assert Inner(GtPlan(w, swap), 0) && Holds(x, v);
    BitsOnNets(x, v, i);
    assert x.ins[i] == z.c.ins[i + 1] && x.ins[w - 1 + i] == z.c.ins[w + i + 1];
  }

  /** Chain cell `i` says whether some bit above `i` differs. */
  lemma {:induction false} ChainBit(cells: seq<Cell>, z: Site, w: nat, swap: bool, top: nat, v: Valuation, i: nat)
    requires OrderDone(cells, z, w, swap, top) && InnerHold(cells, z, GtPlan(w, swap), v) && !v(z.zero) && i < w - 1
    requires At(cells, z, OrAt(i)).outs != [] && At(cells, z, OrAt(i)).outs[0].Some?
    ensures Val(At(cells, z, OrAt(i)).outs[0], v) == HigherDiffers(Vals(PortA(z.c), v), Vals(PortB(z.c), v), i)
    decreases w - i
  {
    var a, b, y := Vals(PortA(z.c), v), Vals(PortB(z.c), v), At(cells, z, OrAt(i));
    OrCell(cells, z, w, swap, top, i);
    DifferenceBit(cells, z, w, swap, top, v, i);
    PlanAt(w, swap, i);
    assert Inner(GtPlan(w, swap), OrAt(i)) && Holds(y, v);
    OrHolds(y, v);
    HigherStep(a, b, i);
    if i + 2 < w {
      OrCell(cells, z, w, swap, top, i + 1);
      OrOut(cells, z, w, swap, top, i);
      ChainBit(cells, z, w, swap, top, v, i + 1);
    } else {
      assert !HigherDiffers(a, b, i + 1);
    }
  }

  lemma {:induction false} OrOut(cells: seq<Cell>, z: Site, w: nat, swap: bool, top: nat, i: nat)
    requires OrderDone(cells, z, w, swap, top) && i + 2 < w
    ensures At(cells, z, OrAt(i + 1)).outs != [] && At(cells, z, OrAt(i + 1)).outs[0].Some?
    ensures At(cells, z, OrAt(i)).ins[1] == At(cells, z, OrAt(i + 1)).outs[0]
  {
    OrCell(cells, z, w, swap, top, i);
    OrCell(cells, z, w, swap, top, i + 1);
    PlanAt(w, swap, i);
    WiredGate(cells, z, GtPlan(w, swap), w, 1, top, OrAt(i));
    assert At(cells, z, OrAt(i)).ins[1].Some?;
  }

  /** The comparison cell of a position: its operands differ the right way and no higher bit differs. */
  lemma {:induction false} GtBit(cells: seq<Cell>, z: Site, w: nat, swap: bool, top: nat, v: Valuation, i: nat)
    requires OrderDone(cells, z, w, swap, top) && InnerHold(cells, z, GtPlan(w, swap), v) && !v(z.zero) && i < w
    ensures var a, b := Vals(PortA(z.c), v), Vals(PortB(z.c), v);
      WordOf(At(cells, z, GtAt(i)), v) == [(if swap then b[i] && !a[i] else a[i] && !b[i]) && !HigherDiffers(a, b, i)]
  {
    hide GtPlan, GatesOk;
    var a, b, k := Vals(PortA(z.c), v), Vals(PortB(z.c), v), At(cells, z, GtAt(i));
    GtCell(cells, z, w, swap, top, i);
    if i + 1 < w {
      OrCell(cells, z, w, swap, top, i);
      assert At(cells, z, OrAt(i)).outs[0] == k.ins[2];
      ChainBit(cells, z, w, swap, top, v, i);
    } else {
      assert !HigherDiffers(a, b, i);
    }
    GtWord(k, v);
  }

  lemma {:induction false} GtWord(k: Cell, v: Valuation)
    requires k.kind == Gt && |k.ins| == 3 && |k.inPorts| == 3
    ensures WordOf(k, v) == [Val(k.ins[0], v) && !Val(k.ins[1], v) && !Val(k.ins[2], v)]
  {
  }

  /** What reaches input `i` of the final gate. */
  lemma {:induction false} FinalBit(cells: seq<Cell>, z: Site, w: nat, swap: bool, top: nat, v: Valuation, i: nat)
    requires OrderDone(cells, z, w, swap, top) && InnerHold(cells, z, GtPlan(w, swap), v) && !v(z.zero) && i < w
    ensures var a, b := Vals(PortA(z.c), v), Vals(PortB(z.c), v);
      i < |At(cells, z, 1).ins|
        && Val(At(cells, z, 1).ins[i], v)
        == ((if swap then b[i] && !a[i] else a[i] && !b[i]) && !HigherDiffers(a, b, i))
  {
    PlanAt(w, swap, i);
    WiredGate(cells, z, GtPlan(w, swap), w, 1, top, 1);
    assert GtPlan(w, swap)[1].slots[i].src == From(GtAt(i), 0);
    GtBit(cells, z, w, swap, top, v, i);
    GtCell(cells, z, w, swap, top, i);
    var k := At(cells, z, GtAt(i));
    assert Inner(GtPlan(w, swap), GtAt(i)) && Holds(k, v) && k.outs[0] == At(cells, z, 1).ins[i] && k.outs[0].Some?;
  }

  lemma {:induction false} AnyExceeds(x: seq<bool>, a: seq<bool>, b: seq<bool>, swap: bool)
    requires |x| == |a| == |b|
    requires forall i: nat {:trigger HigherDiffers(a, b, i)} :: i < |x| ==>
      x[i] == ((if swap then b[i] && !a[i] else a[i] && !b[i]) && !HigherDiffers(a, b, i))
    ensures Any(x) == if swap then ToNat(a) < ToNat(b) else ToNat(a) > ToNat(b)
  {
    ExceedsIsGreater(a, b);
    ExceedsIsGreater(b, a);
    forall i: nat {:trigger HigherDiffers(a, b, i)} | i < |a|
      ensures HigherDiffers(a, b, i) == HigherDiffers(b, a, i) {}
    if Any(x) {
      var i :| 0 <= i < |x| && x[i];
      assert x[i] == ((if swap then b[i] && !a[i] else a[i] && !b[i]) && !HigherDiffers(a, b, i));
    }
    if swap && Exceeds(b, a) {
      var i: nat :| i < |b| && b[i] && !a[i] && !HigherDiffers(b, a, i);
      assert !HigherDiffers(a, b, i) && x[i];
    } else if !swap && Exceeds(a, b) {
      var i: nat :| i < |a| && a[i] && !b[i] && !HigherDiffers(a, b, i);
      assert x[i];
    }
  }

  lemma {:induction false} FinalBits(cells: seq<Cell>, z: Site, w: nat, swap: bool, top: nat, v: Valuation,
                                     x: seq<bool>, a: seq<bool>, b: seq<bool>)
    requires OrderDone(cells, z, w, swap, top) && InnerHold(cells, z, GtPlan(w, swap), v) && !v(z.zero)
    requires x == Vals(At(cells, z, 1).ins, v)
    requires a == Vals(PortA(z.c), v) && b == Vals(PortB(z.c), v)
    ensures |x| == |a| == |b| && Any(x) == if swap then ToNat(a) < ToNat(b) else ToNat(a) > ToNat(b)
  {
    FinalShape(cells, z, w, swap, top);
    forall i: nat {:trigger HigherDiffers(a, b, i)} | i < w
      ensures x[i] == ((if swap then b[i] && !a[i] else a[i] && !b[i]) && !HigherDiffers(a, b, i))
    {
      FinalBit(cells, z, w, swap, top, v, i);
    }
    AnyExceeds(x, a, b, swap);
  }

  /** The final gate compares the operands. */
  lemma {:induction false} FinalWord(cells: seq<Cell>, z: Site, w: nat, swap: bool, top: nat, v: Valuation, y: Cell)
    requires OrderDone(cells, z, w, swap, top) && InnerHold(cells, z, GtPlan(w, swap), v) && !v(z.zero)
    requires y == At(cells, z, 1)
    ensures WordOf(y, v) == WordOf(z.c, v) && |WordOf(z.c, v)| == 1
  {
    FinalBits(cells, z, w, swap, top, v, Vals(y.ins, v), Vals(PortA(z.c), v), Vals(PortB(z.c), v));
    FinalShape(cells, z, w, swap, top);
    CompareWord(z.c, w, v);
    ReductionWord(y, v);
  }

  lemma {:induction false} FinalShape(cells: seq<Cell>, z: Site, w: nat, swap: bool, top: nat)
    requires OrderDone(cells, z, w, swap, top)
    ensures var y := At(cells, z, 1); y.kind == LogicalOr && |y.inPorts| == 1 && |y.ins| == w
  {
    PlanAt(w, swap, 0);
    WiredGate(cells, z, GtPlan(w, swap), w, 1, top, 1);
  }

  lemma {:induction false} OrderRight(cells: seq<Cell>, z: Site, w: nat, swap: bool, top: nat, v: Valuation)
    requires OrderDone(cells, z, w, swap, top) && InnerHold(cells, z, GtPlan(w, swap), v) && !v(z.zero)
    ensures TakersRight(cells, z, GtPlan(w, swap), v)
  {
    FinalWord(cells, z, w, swap, top, v, At(cells, z, 1));
    OnlyFinal(w, swap);
  }

  lemma {:induction false} OnlyFinal(w: nat, swap: bool)
    requires w >= 1
    ensures forall x: nat {:trigger GtPlan(w, swap)[x]} :: x < |GtPlan(w, swap)| && GtPlan(w, swap)[x].takes.Some? ==>
      x == 1
    ensures GtPlan(w, swap)[1].takes == Some(0)
  {
    forall x: nat {:trigger GtPlan(w, swap)[x]} | x < |GtPlan(w, swap)|
      ensures GtPlan(w, swap)[x].takes.Some? ==> x == 1 { var i := PlanIs(w, swap, x); }
    PlanAt(w, swap, 0);
  }

  // ----- the operations -----

  lemma {:induction false} OrderLowers(a: NL, b: NL, n: nat, z: Site, w: nat, swap: bool)
    requires WellFormed(a) && n < |a.cells| && z == SiteOf(a, n) && b == a.(cells := b.cells, nets := b.nets)
    requires a.nets <= b.nets
    requires w >= 1 && OrderNode(z.c, w) && swap == z.c.kind.Lt?
    requires NetworkOk(b.cells, z, GtPlan(w, swap), w, {}, 1, b.nets) && OtherCells(a.cells, b.cells, n)
    requires NodeLeft(b.cells[n], z.c, 1)
    ensures Lowers(a, b) && WellFormed(b) && Undriving(b.cells[n])
    ensures |a.cells| < |b.cells| && BitwiseNode(b.cells[|a.cells|]) && |b.cells[|a.cells|].ins| == 2 * (w - 1)
  {
    var plan := GtPlan(w, swap);
    PlanFits(z, w, swap);
    PlanRanked(w, swap);
    assert InRange(z.c, z.base);
    forall v: Valuation | Constants(a.zero, a.one, v) && InnerHold(b.cells, z, plan, v)
      ensures TakersRight(b.cells, z, plan, v) {
      OrderRight(b.cells, z, w, swap, b.nets, v);
    }
    NetworkLowers(a, b, n, z, plan, Ranks(w), w, [1]);
    XorCell(b.cells, z, w, swap, b.nets);
    assert At(b.cells, z, 0) == b.cells[z.c0];
  }

  method WireOrder(g: Netlist, n: nat, w: nat, less: bool, c0: nat, ghost a: NL, ghost z: Site)
    requires g.Ready() && n < |g.cells| && a == g.Meaning() && z == SiteOf(a, n) && OrderNode(z.c, w) && w >= 1
    requires less == z.c.kind.Lt? && c0 == z.c0
    modifies g
    ensures Comparing(g, a, n, z, w, less, w, {}, 1) && g.Steady(old(g.fence), old(g.fenced), old(g.tidy))
  {
    ghost var plan := GtPlan(w, less);
    assert a.cells + Blanks(plan[..0]) == a.cells;
    CreateOrder(g, w, less, a, plan);
    PlanFits(z, w, less);
    Created(g, a, n, z, plan);
    assert g.cells[n] == z.c;
    for i := 0 to w
      invariant Comparing(g, a, n, z, w, less, i, {}, 0) && From2(g.cells[n], z.c, w, i)
      invariant g.Steady(old(g.fence), old(g.fenced), old(g.tidy))
    {
      OrderPosition(g, n, w, less, c0, i, a, z);
    }
    MoveLast(g, n, w, less, c0, a, z);
  }

  method MoveLast(g: Netlist, n: nat, w: nat, less: bool, c0: nat, ghost a: NL, ghost z: Site)
    requires Comparing(g, a, n, z, w, less, w, {}, 0) && c0 == z.c0
    modifies g
    ensures Comparing(g, a, n, z, w, less, w, {}, 1) && g.Steady(old(g.fence), old(g.fenced), old(g.tidy))
  {
    PlanFits(z, w, less);
    PlanAt(w, less, 0);
    MoveOutput(g, n, c0, 1, 0, a, z, GtPlan(w, less), w, {});
  }

  /** Greater-than and less-than of two operands of one width. The network is built and has the node's behaviour for
      every width; the difference gate in it is then split into bits, which is refused if it has no input. */
  method InstantiateGt(g: Netlist, n: nat, ghost w: nat) returns (ok: bool)
    requires g.Ready() && WellFormed(g.Meaning()) && n < |g.cells| && OrderNode(g.cells[n], w)
    modifies g
    ensures g.Ready() && WellFormed(g.Meaning()) && g.Steady(old(g.fence), old(g.fenced), old(g.tidy))
    ensures ok <==> w >= 2
    ensures OtherCells(old(g.cells), g.cells, n) && Undriving(g.cells[n]) && Lowers(old(g.Meaning()), g.Meaning())
  {
    ghost var a, z := g.Meaning(), SiteOf(g.Meaning(), n);
    assert NodeOk(g.nodes[n], g.pins, n, g.cells[n]);
    var width, less, c0 := g.nodes[n].inPorts[0].width, g.nodes[n].kind.Lt?, |g.nodes|;
    WireOrder(g, n, width, less, c0, a, z);
    ghost var mid := g.Meaning();
    OrderLowers(a, mid, n, z, width, less);
    ok := InstantiateBitwiseLogic(g, c0);
    if ok { LowersTransitive(a, mid, g.Meaning()); }
    assert g.cells[n] == mid.cells[n];
  }

  /** The comparison of two single bits is refused: its difference gate has no input. */
  lemma {:induction false} OneBitRefused(w: nat)
    requires w >= 1
    ensures XorSpec(w).slots == [] <==> w == 1
    ensures OrderNode(Cell(Gt, [Some(3), Some(4)], [Some(5)], [Bit1, Bit1], [1]), 1) && XorSpec(1).slots == []
  {
    assert |XorSpec(w).slots| == 2 * (w - 1);
  }
}
