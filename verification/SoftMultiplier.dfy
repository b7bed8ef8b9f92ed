/** instantiate_simple_soft_multiplier. */
module SoftMultiplier {
  import opened Wrappers
  import opened Bits
  import opened Semantics
  import opened Runs
  import opened Netlists
  import opened RippleCells
  import opened RippleBuild
  import opened Growth
  import opened MultiplierCells
  import opened MultiplierWiring
  import opened MultiplierMeaning
  import Adders
  import PB = ProductBits

  // ----- the loops over the adders -----

  /** Bit `j` of both operands of adder `i`. */
  method FillPair(g: Netlist, n: nat, p: Array, a: nat, b: nat, i: nat, j: nat, ghost c: Cell, ghost c0: nat)
    requires g.Ready() && n < c0 && n < |g.cells| && MultNode(c) && a == WidthA(c) && b == WidthB(c)
    requires IdsApart(p, c0, |g.cells|) && i < b - 1 && j < a + 1
    requires AddersWired(g.cells, c, p, g.zeroNet, i, j, j) && WellFormed(Virtual(g.Meaning(), n, c))
    requires g.fence.floor <= c0
    modifies g
    ensures g.Ready() && g.Steady(old(g.fence), old(g.fenced), old(g.tidy)) && |old(g.nets)| <= |g.nets|
    ensures OffArray(old(g.cells), g.cells, c0)
    ensures AddersWired(g.cells, c, p, g.zeroNet, i, j + 1, j + 1)
    ensures Lowers(Virtual(old(g.Meaning()), n, c), Virtual(g.Meaning(), n, c))
    ensures WellFormed(Virtual(g.Meaning(), n, c))
  {
    ghost var start := g.Meaning();
    FillNext(g, n, p, a, b, i, j, c, c0, j, j, j + 1, j);
    ghost var mid := g.Meaning();
    FillNext(g, n, p, a, b, i, a + 1 + j, c, c0, j + 1, j, j + 1, j + 1);
    LowersTransitive(Virtual(start, n, c), Virtual(mid, n, c), Virtual(g.Meaning(), n, c));
  }

  method WireRow(g: Netlist, n: nat, p: Array, a: nat, b: nat, i: nat, ghost c: Cell, ghost c0: nat)
    requires g.Ready() && n < c0 && n < |g.cells| && MultNode(c) && a == WidthA(c) && b == WidthB(c)
    requires IdsApart(p, c0, |g.cells|) && i < b - 1
    requires AddersWired(g.cells, c, p, g.zeroNet, i, 0, 0) && WellFormed(Virtual(g.Meaning(), n, c))
    requires g.fence.floor <= c0
    modifies g
    ensures g.Ready() && g.Steady(old(g.fence), old(g.fenced), old(g.tidy)) && |old(g.nets)| <= |g.nets|
    ensures OffArray(old(g.cells), g.cells, c0)
    ensures AddersWired(g.cells, c, p, g.zeroNet, i, a + 1, a + 1)
    ensures Lowers(Virtual(old(g.Meaning()), n, c), Virtual(g.Meaning(), n, c))
    ensures WellFormed(Virtual(g.Meaning(), n, c))
  {
    hide AddersWired;
    ghost var start := g.Meaning();
    LowersReflexive(Virtual(start, n, c));
    for j := 0 to a + 1
      invariant g.Ready() && g.Steady(old(g.fence), old(g.fenced), old(g.tidy)) && start.nets <= |g.nets|
      invariant OffArray(start.cells, g.cells, c0)
      invariant AddersWired(g.cells, c, p, g.zeroNet, i, j, j)
      invariant Lowers(Virtual(start, n, c), Virtual(g.Meaning(), n, c)) && WellFormed(Virtual(g.Meaning(), n, c))
    {
      ghost var mid := g.Meaning();
      FillPair(g, n, p, a, b, i, j, c, c0);
      LowersTransitive(Virtual(start, n, c), Virtual(mid, n, c), Virtual(g.Meaning(), n, c));
    }
  }

  lemma {:induction false} NextRow(cells: seq<Cell>, c: Cell, p: Array, zero: nat, i: nat)
    requires MultNode(c) && AddersWired(cells, c, p, zero, i, WidthA(c) + 1, WidthA(c) + 1)
    ensures AddersWired(cells, c, p, zero, i + 1, 0, 0)
  {
  }

  lemma {:induction false} FirstRow(cells: seq<Cell>, created: seq<Cell>, c: Cell, p: Array, c0: nat, n: nat, zero: nat)
    requires MultNode(c) && Wide(p, WidthA(c), WidthB(c)) && IdsApart(p, c0, |cells|) && n < c0
    requires GatesWired(cells, c, p, WidthB(c), 0)
    requires Created(created, p, WidthA(c)) && OffGates(created, cells, n, p)
    ensures AddersWired(cells, c, p, zero, 0, 0, 0)
  {
    var a := WidthA(c);
    forall k {:trigger p.adders[k]} | 0 <= k < |p.adders|
      ensures CellIs(cells, p.adders[k], AdderCell(a + 1, Nones(2 * a + 2), Nones(a + 1))) {
      assert CellIs(created, p.adders[k], AdderCell(a + 1, Nones(2 * a + 2), Nones(a + 1)));
      assert !IsGate(p, p.adders[k]);
    }
    assert HasPp(p, 0, 0);
    assert CellIs(cells, p.pps[0][0], AndCell(c.ins[a], c.ins[0], None));
  }

  method WireAdders(g: Netlist, n: nat, p: Array, a: nat, b: nat, ghost c: Cell, ghost c0: nat)
    requires g.Ready() && n < c0 && n < |g.cells| && MultNode(c) && a == WidthA(c) && b == WidthB(c) >= 2
    requires IdsApart(p, c0, |g.cells|)
    requires AddersWired(g.cells, c, p, g.zeroNet, 0, 0, 0) && WellFormed(Virtual(g.Meaning(), n, c))
    requires g.fence.floor <= c0
    modifies g
    ensures g.Ready() && g.Steady(old(g.fence), old(g.fenced), old(g.tidy)) && |old(g.nets)| <= |g.nets|
    ensures OffArray(old(g.cells), g.cells, c0)
    ensures AddersWired(g.cells, c, p, g.zeroNet, b - 2, a + 1, a + 1)
    ensures Lowers(Virtual(old(g.Meaning()), n, c), Virtual(g.Meaning(), n, c))
    ensures WellFormed(Virtual(g.Meaning(), n, c))
  {
    hide AddersWired;
    ghost var start := g.Meaning();
    LowersReflexive(Virtual(start, n, c));
    for i := 0 to b - 1
      invariant g.Ready() && g.Steady(old(g.fence), old(g.fenced), old(g.tidy)) && start.nets <= |g.nets|
      invariant OffArray(start.cells, g.cells, c0)
      invariant if i < b - 1 then AddersWired(g.cells, c, p, g.zeroNet, i, 0, 0)
        else AddersWired(g.cells, c, p, g.zeroNet, b - 2, a + 1, a + 1)
      invariant Lowers(Virtual(start, n, c), Virtual(g.Meaning(), n, c)) && WellFormed(Virtual(g.Meaning(), n, c))
    {
      ghost var mid := g.Meaning();
      WireRow(g, n, p, a, b, i, c, c0);
      LowersTransitive(Virtual(start, n, c), Virtual(mid, n, c), Virtual(g.Meaning(), n, c));
      if i < b - 2 { NextRow(g.cells, c, p, g.zeroNet, i); }
    }
  }

  // ----- the outputs -----

  /** The first `i` output pins of the node have moved to their targets. */
  ghost predicate Moved(before: seq<Cell>, after: seq<Cell>, n: nat, c: Cell, p: Array, b: nat, i: nat)
    requires b >= 2 && |p.adders| == b - 1 && p.pps != [] && p.pps[0] != []
  {
    && |before| == |after| && n < |before|
    && (forall k {:trigger after[k]} :: 0 <= k < |before| ==>
      after[k] == before[k].(outs := after[k].outs) && |after[k].outs| == |before[k].outs|)
    && |before[n].outs| == |c.outs| && (forall t {:trigger after[n].outs[t]} :: 0 <= t < |c.outs| ==>
      after[n].outs[t] == if t < i then None else c.outs[t])
    && (forall j: nat {:trigger Target(p, b, j)} :: j < i && j < |c.outs| ==> PinAt(after, Target(p, b, j), c.outs[j]))
    && (forall k: nat, t: nat {:trigger after[k].outs[t]} ::
      k < |before| && k != n && t < |before[k].outs| && !IsTarget(p, b, i, k, t) ==>
        after[k].outs[t] == before[k].outs[t])
  }

  ghost predicate PinAt(cells: seq<Cell>, at: (nat, nat), e: Option<nat>) {
    HasOut(cells, at.0, at.1) && cells[at.0].outs[at.1] == e
  }

  ghost predicate IsTarget(p: Array, b: nat, i: nat, k: nat, t: nat)
    requires b >= 2 && |p.adders| == b - 1 && p.pps != [] && p.pps[0] != []
  {
    exists j: nat {:trigger Target(p, b, j)} :: j < i && Target(p, b, j) == (k, t)
  }

  lemma {:induction false} TargetsApart(p: Array, a: nat, b: nat, c0: nat, top: nat, i: nat, j: nat)
    requires Wide(p, a, b) && IdsApart(p, c0, top) && i < a + b && j < a + b
    ensures Target(p, b, i) == Target(p, b, j) ==> i == j
    ensures c0 <= Target(p, b, i).0 < top && Target(p, b, i).1 <= a
  {
    assert HasPp(p, 0, 0);
  }

  /** Before they move, nothing sits on the targets. */
  lemma {:induction false} TargetOpen(cells: seq<Cell>, c: Cell, p: Array, zero: nat, i: nat)
    requires MultNode(c) && WidthB(c) >= 2
    requires AddersWired(cells, c, p, zero, WidthB(c) - 2, WidthA(c) + 1, WidthA(c) + 1) && i < |c.outs|
    ensures PinAt(cells, Target(p, WidthB(c), i), None)
  {
    var b := WidthB(c);
    if i > 0 && i >= b - 1 { assert Silent(cells, p.adders[b - 2]) && AdderLike(cells[p.adders[b - 2]], WidthA(c)); }
  }

  lemma {:induction false} MovedStep(before: seq<Cell>, mid: seq<Cell>, after: seq<Cell>, n: nat, c: Cell, p: Array,
                                     a: nat, b: nat, c0: nat, i: nat)
    requires Wide(p, a, b) && IdsApart(p, c0, |before|) && n < c0 && i < |c.outs| == a + b
    requires Moved(before, mid, n, c, p, b, i)
    requires HasOut(mid, n, i) && HasOut(mid, Target(p, b, i).0, Target(p, b, i).1)
    requires after == SetOut(SetOut(mid, n, i, None), Target(p, b, i).0, Target(p, b, i).1, c.outs[i])
    ensures Moved(before, after, n, c, p, b, i + 1)
  {
    TargetsApart(p, a, b, c0, |before|, i, i);
    var (o, s) := Target(p, b, i);
    forall j: nat {:trigger Target(p, b, j)} | j < i + 1 && j < |c.outs|
      ensures PinAt(after, Target(p, b, j), c.outs[j]) {
      TargetsApart(p, a, b, c0, |before|, i, j);
      TargetsApart(p, a, b, c0, |before|, j, j);
    }
    forall k: nat, t: nat {:trigger after[k].outs[t]}
      | k < |before| && k != n && t < |before[k].outs| && !IsTarget(p, b, i + 1, k, t)
      ensures after[k].outs[t] == before[k].outs[t]
    {
      assert Target(p, b, i) != (k, t);
      assert !IsTarget(p, b, i, k, t);
      assert mid[k].outs[t] == before[k].outs[t];
    }
  }

  /** The loop over the outputs. */
  method MoveOutputs(g: Netlist, n: nat, p: Array, a: nat, b: nat, w: nat, ghost c: Cell, ghost c0: nat)
    requires g.Ready() && n < c0 && n < |g.cells| && MultNode(c) && a == WidthA(c) && b == WidthB(c) >= 2
    requires w == |c.outs| && IdsApart(p, c0, |g.cells|)
    requires AddersWired(g.cells, c, p, g.zeroNet, b - 2, a + 1, a + 1) && g.cells[n].outs == c.outs
    modifies g
    ensures g.Ready() && g.Steady(old(g.fence), old(g.fenced), old(g.tidy)) && |g.nets| == |old(g.nets)|
    ensures Wide(p, a, b) && Moved(old(g.cells), g.cells, n, c, p, b, w)
  {
    hide Target, IdsApart;
    ghost var before := g.cells;
    for i := 0 to w
      invariant g.Ready() && g.Steady(old(g.fence), old(g.fenced), old(g.tidy)) && |g.nets| == |old(g.nets)|
      invariant Moved(before, g.cells, n, c, p, b, i)
    {
      ghost var mid := g.cells;
      var (o, t) := Target(p, b, i);
      TargetsApart(p, a, b, c0, |before|, i, i);
      TargetOpen(before, c, p, g.zeroNet, i);
      StillOpen(before, mid, n, c, p, a, b, c0, i);
      assert g.cells[n].outs[i] == c.outs[i];
      g.RemapOutput(n, i, o, t);
      MovedStep(before, mid, g.cells, n, c, p, a, b, c0, i);
    }
  }

  lemma {:induction false} StillOpen(before: seq<Cell>, mid: seq<Cell>, n: nat, c: Cell, p: Array, a: nat, b: nat,
                                     c0: nat, i: nat)
    requires Wide(p, a, b) && IdsApart(p, c0, |before|) && n < c0 && i < |c.outs| == a + b
    requires Moved(before, mid, n, c, p, b, i)
    requires PinAt(before, Target(p, b, i), None)
    ensures PinAt(mid, Target(p, b, i), None)
  {
    var (o, t) := Target(p, b, i);
    TargetsApart(p, a, b, c0, |before|, i, i);
    assert !IsTarget(p, b, i, o, t) by {
      forall j: nat {:trigger Target(p, b, j)} | j < i
        ensures Target(p, b, j) != (o, t) { TargetsApart(p, a, b, c0, |before|, i, j); }
    }
    assert mid[o].outs[t] == before[o].outs[t];
  }

  // ----- what the move means -----

  function WordOf(x: Cell, v: Valuation): seq<bool> {
    Outputs(x.kind, x.inPorts, Vals(x.ins, v), |x.outs|)
  }

  /** Every cell of the array with a target among its outputs computes what belongs there. */
  ghost predicate Words(cells: seq<Cell>, c: Cell, p: Array, v: Valuation)
    requires MultNode(c) && WidthB(c) >= 2
  {
    && |p.adders| == WidthB(c) - 1 && p.pps != [] && p.pps[0] != []
    && WordAt(cells, p.pps[0][0], [PB.Row(BitsA(c, v), BitsB(c, v)[0])[0]], v)
    && forall k {:trigger p.adders[k]} :: 0 <= k < |p.adders| ==>
      WordAt(cells, p.adders[k], PB.Stage(BitsA(c, v), BitsB(c, v), k), v)
  }

  ghost predicate WordAt(cells: seq<Cell>, x: nat, word: seq<bool>, v: Valuation) {
    x < |cells| && WordOf(cells[x], v) == word && |cells[x].outs| == |word|
  }

  lemma {:induction false} AllWords(cells: seq<Cell>, c: Cell, p: Array, zero: nat, v: Valuation)
    requires MultNode(c) && WidthB(c) >= 2
    requires AddersWired(cells, c, p, zero, WidthB(c) - 2, WidthA(c) + 1, WidthA(c) + 1)
    requires GatesHold(cells, p, v) && !v(zero)
    ensures Words(cells, c, p, v)
  {
    LowestWord(cells, c, p, v);
    forall k {:trigger p.adders[k]} | 0 <= k < |p.adders|
      ensures WordAt(cells, p.adders[k], PB.Stage(BitsA(c, v), BitsB(c, v), k), v) {
      AdderWord(cells, c, p, zero, v, k);
    }
  }

  /** At its target, output `i` finds bit `i` of the product. */
  lemma {:induction false} TargetWord(cells: seq<Cell>, c: Cell, p: Array, v: Valuation,
                                      i: nat) returns (word: seq<bool>)
    requires MultNode(c) && WidthB(c) >= 2 && Words(cells, c, p, v) && i < |c.outs|
    ensures var (o, t) := Target(p, WidthB(c), i);
      WordAt(cells, o, word, v) && t < |word| && word[t] == PB.Product(BitsA(c, v), BitsB(c, v))[i]
  {
    var k;
    word, k := TargetStage(p, BitsA(c, v), BitsB(c, v), i);
    if i > 0 { assert WordAt(cells, p.adders[k], word, v); }
  }

  lemma {:induction false} LowestWord(cells: seq<Cell>, c: Cell, p: Array, v: Valuation)
    requires MultNode(c) && Wide(p, WidthA(c), WidthB(c)) && Shapes(cells, c, p)
    ensures WordAt(cells, p.pps[0][0], [PB.Row(BitsA(c, v), BitsB(c, v)[0])[0]], v)
  {
    assert HasPp(p, 0, 0);
    LowestGate(cells[p.pps[0][0]], c, v);
  }

  lemma {:induction false} AdderWord(cells: seq<Cell>, c: Cell, p: Array, zero: nat, v: Valuation, k: nat)
    requires MultNode(c) && WidthB(c) >= 2
    requires AddersWired(cells, c, p, zero, WidthB(c) - 2, WidthA(c) + 1, WidthA(c) + 1)
    requires GatesHold(cells, p, v) && !v(zero) && k < WidthB(c) - 1
    ensures p.adders[k] < |cells| && |cells[p.adders[k]].outs| == WidthA(c) + 1
    ensures WordOf(cells[p.adders[k]], v) == PB.Stage(BitsA(c, v), BitsB(c, v), k)
  {
    assert AdderLike(cells[p.adders[k]], WidthA(c));
    AllSlots(cells, c, p, zero);
    AdderStage(cells, c, p, zero, k, v);
  }

  lemma {:induction false} AllSlots(cells: seq<Cell>, c: Cell, p: Array, zero: nat)
    requires MultNode(c) && WidthB(c) >= 2
    requires AddersWired(cells, c, p, zero, WidthB(c) - 2, WidthA(c) + 1, WidthA(c) + 1)
    ensures forall k: nat, s: nat {:trigger SlotDone(cells, p, WidthA(c), WidthB(c), zero, k, s)} ::
      k < WidthB(c) - 1 && s < 2 * WidthA(c) + 2 ==> SlotDone(cells, p, WidthA(c), WidthB(c), zero, k, s)
  {
  }

  lemma {:induction false} LowestGate(x: Cell, c: Cell, v: Valuation)
    requires MultNode(c) && GateLike(x, c.ins[WidthA(c)], c.ins[0])
    ensures WordOf(x, v) == [PB.Row(BitsA(c, v), BitsB(c, v)[0])[0]]
  {
    var vals := Vals(x.ins, v);
    assert vals[0] == BitsB(c, v)[0] && vals[1] == BitsA(c, v)[0];
    assert All(vals) == (vals[0] && vals[1]);
  }

  /** More outputs, all of them carrying the cell's word. */
  lemma {:induction false} HoldsMore(x: Cell, y: Cell, v: Valuation)
    requires y == x.(outs := y.outs) && |y.outs| == |x.outs| && Holds(x, v) && Combinational(x.kind)
    requires forall t {:trigger y.outs[t]} :: 0 <= t < |y.outs| && y.outs[t] != x.outs[t] ==>
      y.outs[t].Some? && (t < |WordOf(x, v)| ==> v(y.outs[t].value) == WordOf(x, v)[t])
    ensures Holds(y, v)
  {
    forall t | 0 <= t < |y.outs| && t < |WordOf(y, v)| && y.outs[t].Some?
      ensures v(y.outs[t].value) == WordOf(y, v)[t] {}
  }

  lemma {:induction false} HoldsLess(x: Cell, y: Cell, v: Valuation)
    requires y == x.(outs := y.outs) && |y.outs| == |x.outs| && Holds(y, v)
    requires forall t {:trigger x.outs[t]} :: 0 <= t < |x.outs| && x.outs[t].Some? ==> y.outs[t] == x.outs[t]
    ensures Holds(x, v)
  {
  }

  /** Setting of the last step: everything wired, then all outputs moved. */
  ghost predicate LastStep(before: seq<Cell>, after: seq<Cell>, n: nat, c: Cell, p: Array, zero: nat, c0: nat)
    requires MultNode(c)
  {
    && WidthB(c) >= 2 && n < c0 && Wide(p, WidthA(c), WidthB(c)) && IdsApart(p, c0, |before|)
    && AddersWired(before, c, p, zero, WidthB(c) - 2, WidthA(c) + 1, WidthA(c) + 1)
    && Moved(before, after, n, c, p, WidthB(c), |c.outs|) && before[n] == c.(ins := before[n].ins)
  }

  lemma {:induction false} KeptOuts(before: seq<Cell>, after: seq<Cell>, n: nat, c: Cell, p: Array, zero: nat, c0: nat,
                                    k: nat, t: nat)
    requires MultNode(c) && LastStep(before, after, n, c, p, zero, c0) && k < |before| && k != n && t < |before[k].outs|
    ensures after[k].outs[t] == before[k].outs[t]
      || (before[k].outs[t] == None && exists i: nat {:trigger Target(p, WidthB(c), i)} ::
        i < |c.outs| && Target(p, WidthB(c), i) == (k, t) && after[k].outs[t] == c.outs[i])
  {
    if IsTarget(p, WidthB(c), |c.outs|, k, t) {
      var i: nat :| i < |c.outs| && Target(p, WidthB(c), i) == (k, t);
      TargetOpen(before, c, p, zero, i);
      assert PinAt(after, Target(p, WidthB(c), i), c.outs[i]);
    }
  }

  lemma {:induction false} OldHold(before: seq<Cell>, after: seq<Cell>, n: nat, c: Cell, p: Array, zero: nat, c0: nat,
                                   v: Valuation, k: nat)
    requires MultNode(c) && LastStep(before, after, n, c, p, zero, c0) && k < |before| && k != n && Holds(after[k], v)
    ensures Holds(before[k], v)
  {
    forall t {:trigger before[k].outs[t]} | 0 <= t < |before[k].outs| && before[k].outs[t].Some?
      ensures after[k].outs[t] == before[k].outs[t] {
      KeptOuts(before, after, n, c, p, zero, c0, k, t);
    }
    HoldsLess(before[k], after[k], v);
  }

  lemma {:induction false} ArrayHolds(before: seq<Cell>, p: Array, n: nat, c0: nat, v: Valuation)
    requires IdsApart(p, c0, |before|) && n < c0 && forall k :: 0 <= k < |before| && k != n ==> Holds(before[k], v)
    ensures GatesHold(before, p, v)
  {
  }

  lemma {:induction false} NewHold(before: seq<Cell>, after: seq<Cell>, n: nat, c: Cell, p: Array, zero: nat, c0: nat,
                                   v: Valuation, k: nat)
    requires MultNode(c) && LastStep(before, after, n, c, p, zero, c0) && k < |before| && k != n && Holds(before[k], v)
    requires Words(before, c, p, v) && Holds(c, v)
    ensures Holds(after[k], v)
  {
    if Combinational(before[k].kind) {
      forall t {:trigger after[k].outs[t]} | 0 <= t < |after[k].outs| && after[k].outs[t] != before[k].outs[t]
        ensures after[k].outs[t].Some?
        ensures (t < |WordOf(before[k], v)| ==> v(after[k].outs[t].value) == WordOf(before[k], v)[t])
      {
        KeptOuts(before, after, n, c, p, zero, c0, k, t);
        var i: nat :| i < |c.outs| && Target(p, WidthB(c), i) == (k, t) && after[k].outs[t] == c.outs[i];
        var word := TargetWord(before, c, p, v, i);
        NodeMeaning(c, v);
      }
      HoldsMore(before[k], after[k], v);
    }
  }

  lemma {:induction false} NodeHolds(before: seq<Cell>, after: seq<Cell>, n: nat, c: Cell, p: Array, zero: nat,
                                     c0: nat, v: Valuation)
    requires MultNode(c) && LastStep(before, after, n, c, p, zero, c0) && Words(before, c, p, v)
    requires forall k :: 0 <= k < |after| && k != n ==> Holds(after[k], v)
    ensures Holds(c, v)
  {
    NodeMeaning(c, v);
    forall i {:trigger c.outs[i]} | 0 <= i < |c.outs|
      ensures v(c.outs[i].value) == PB.Product(BitsA(c, v), BitsB(c, v))[i] {
      var (o, t) := Target(p, WidthB(c), i);
      var word := TargetWord(before, c, p, v, i);
      TargetsApart(p, WidthA(c), WidthB(c), c0, |before|, i, i);
      assert PinAt(after, Target(p, WidthB(c), i), c.outs[i]);
      assert WordOf(after[o], v) == WordOf(before[o], v);
      TargetKind(before, c, p, zero, i);
      assert after[o].outs[t] == c.outs[i] && c.outs[i].Some?;
    }
  }

  lemma {:induction false} TargetKind(cells: seq<Cell>, c: Cell, p: Array, zero: nat, i: nat)
    requires MultNode(c) && WidthB(c) >= 2
    requires AddersWired(cells, c, p, zero, WidthB(c) - 2, WidthA(c) + 1, WidthA(c) + 1) && i < |c.outs|
    ensures var o := Target(p, WidthB(c), i).0; o < |cells| && Combinational(cells[o].kind)
  {
    if i == 0 { assert HasPp(p, 0, 0); }
      else { assert AdderLike(cells[p.adders[if i < WidthB(c) - 1 then i - 1 else WidthB(c) - 2]], WidthA(c)); }
  }

  /** Moving the outputs off the node onto the array keeps exactly the same valuations. */
  lemma {:induction false} LastStepLowers(a: NL, b: NL, n: nat, c: Cell, p: Array, c0: nat)
    requires MultNode(c) && LastStep(a.cells, b.cells, n, c, p, a.zero, c0) && n < |a.cells|
    requires WellFormed(Virtual(a, n, c))
    requires b == a.(cells := b.cells) && SlotsBelow(a.cells[n].ins, a.nets)
    ensures Lowers(Virtual(a, n, c), b) && WellFormed(b) && Undriving(b.cells[n])
  {
    hide IdsApart, WellFormed;
    var a' := Virtual(a, n, c);
    forall v: Valuation | Consistent(b, v) ensures Consistent(a', v) {
      forall k | 0 <= k < |a.cells| && k != n
        ensures Holds(a.cells[k], v) { OldHold(a.cells, b.cells, n, c, p, a.zero, c0, v, k); }
      ArrayHolds(a.cells, p, n, c0, v);
      AllWords(a.cells, c, p, a.zero, v);
      NodeHolds(a.cells, b.cells, n, c, p, a.zero, c0, v);
    }
    forall v: Valuation | Consistent(a', v) ensures Extends(a', b, v) {
      forall k | 0 <= k < |a.cells| && k != n ensures Holds(a.cells[k], v) { assert a'.cells[k] == a.cells[k]; }
      assert a'.cells[n] == c;
      ArrayHolds(a.cells, p, n, c0, v);
      AllWords(a.cells, c, p, a.zero, v);
      forall k | 0 <= k < |b.cells| ensures Holds(b.cells[k], v) {
        if k != n { NewHold(a.cells, b.cells, n, c, p, a.zero, c0, v, k); }
      }
      assert AgreeBelow(a'.nets, v, v);
    }
    LastInRange(a, b, n, c, p, c0);
  }

  lemma {:induction false} LastInRange(a: NL, b: NL, n: nat, c: Cell, p: Array, c0: nat)
    requires MultNode(c) && LastStep(a.cells, b.cells, n, c, p, a.zero, c0) && n < |a.cells|
    requires WellFormed(Virtual(a, n, c))
    requires b == a.(cells := b.cells) && SlotsBelow(a.cells[n].ins, a.nets)
    ensures WellFormed(b)
  {
    assert Virtual(a, n, c).cells[n] == c && InRange(c, a.nets);
    forall k | 0 <= k < |b.cells| ensures InRange(b.cells[k], b.nets) {
      if k != n {
        assert Virtual(a, n, c).cells[k] == a.cells[k] && InRange(a.cells[k], a.nets);
        forall t | 0 <= t < |b.cells[k].outs| && b.cells[k].outs[t].Some? ensures b.cells[k].outs[t].value < b.nets {
          KeptOuts(a.cells, b.cells, n, c, p, a.zero, c0, k, t);
        }
      }
    }
  }

  // ----- the whole pass -----

  /** The finished adders are ordinary adder nodes. */
  lemma {:induction false} FinishedAdders(before: seq<Cell>, after: seq<Cell>, n: nat, c: Cell, p: Array, zero: nat,
                                          c0: nat, k: nat)
    requires MultNode(c) && LastStep(before, after, n, c, p, zero, c0) && k < |p.adders|
    ensures CellIsAdder(after, p.adders[k]) && p.adders[k] >= c0
  {
    var a, b, x := WidthA(c), WidthB(c), p.adders[k];
    assert AdderLike(before[x], a);
    AllSlots(before, c, p, zero);
    forall s: nat | s < 2 * a + 2 ensures after[x].ins[s].Some? { assert SlotDone(before, p, a, b, zero, k, s); }
    forall t: nat | t < a + 1 ensures after[x].outs[t].Some? { AdderOutSome(before, after, n, c, p, zero, c0, k, t); }
  }

  predicate CellIsAdder(cells: seq<Cell>, x: nat) {
    x < |cells| && AddNode(cells[x])
  }

  /** Each sum bit feeds the next adder or is an output. */
  lemma {:induction false} AdderOutSome(before: seq<Cell>, after: seq<Cell>, n: nat, c: Cell, p: Array, zero: nat,
                                        c0: nat, k: nat, t: nat)
    requires MultNode(c) && LastStep(before, after, n, c, p, zero, c0) && k < |p.adders| && t < WidthA(c) + 1
    ensures HasOut(after, p.adders[k], t) && after[p.adders[k]].outs[t].Some?
  {
    var a, b, x := WidthA(c), WidthB(c), p.adders[k];
    assert AdderLike(before[x], a);
    if t == 0 || k == b - 2 {
      var i := if k == b - 2 then t + b - 1 else k + 1;
      assert Target(p, b, i) == (x, t);
      assert PinAt(after, Target(p, b, i), c.outs[i]) && c.outs[i].Some?;
    } else {
      AllSlots(before, c, p, zero);
      assert SlotDone(before, p, a, b, zero, k + 1, t - 1);
      assert Source(p, a, k + 1, t - 1) == Some((x, t));
      assert before[x].outs[t].Some?;
      KeptOuts(before, after, n, c, p, zero, c0, x, t);
    }
  }

  /** The array in place of the node, its adders still whole. */
  method BuildArray(g: Netlist, n: nat, a: nat, b: nat, w: nat, ghost c: Cell) returns (p: Array,
                    ghost wired: seq<Cell>)
    requires g.Ready() && WellFormed(g.Meaning()) && n < |g.cells| && c == g.cells[n] && MultNode(c) && a == WidthA(c)
    requires b == WidthB(c) >= 2 && w == |c.outs|
    modifies g
    ensures g.Ready() && WellFormed(g.Meaning()) && g.Steady(old(g.fence), old(g.fenced), old(g.tidy))
    ensures Lowers(old(g.Meaning()), g.Meaning())
    ensures OtherCells(old(g.cells), g.cells, n) && Undriving(g.cells[n])
    ensures LastStep(wired, g.cells, n, c, p, g.zeroNet, |old(g.cells)|)
  {
    hide AddersWired;
    ghost var start, c0 := g.Meaning(), |g.cells|;
    p := CreateArray(g, a, b);
    ghost var created := g.Meaning();
    assert g.cells[n] == c && InRange(c, |g.nets|) by { assert created.cells[n] == start.cells[n] && InRange(start.cells[n], start.nets); }
    assert Virtual(created, n, c) == created;
    WireGates(g, n, p, a, b, c, c0);
    ghost var gated := g.Meaning();
    FirstRow(g.cells, created.cells, c, p, c0, n, g.zeroNet);
    WireAdders(g, n, p, a, b, c, c0);
    ghost var done := g.Meaning();
    wired := g.cells;
    assert g.cells[n] == gated.cells[n];
    MoveOutputs(g, n, p, a, b, w, c, c0);
    LastStepLowers(done, g.Meaning(), n, c, p, c0);
    ChainLowers(start, created, gated, done, g.Meaning(), n, c);
    ArrayFrame(start.cells, created.cells, gated.cells, wired, g.cells, n, c, p, c0);
  }

  lemma {:induction false} ChainLowers(a: NL, b: NL, d: NL, e: NL, f: NL, n: nat, c: Cell)
    requires Lowers(a, b) && Virtual(b, n, c) == b && Lowers(b, Virtual(d, n, c))
    requires Lowers(Virtual(d, n, c), Virtual(e, n, c)) && Lowers(Virtual(e, n, c), f)
    ensures Lowers(a, f)
  {
    LowersTransitive(a, b, Virtual(d, n, c));
    LowersTransitive(a, Virtual(d, n, c), Virtual(e, n, c));
    LowersTransitive(a, Virtual(e, n, c), f);
  }

  lemma {:induction false} ArrayFrame(start: seq<Cell>, created: seq<Cell>, gated: seq<Cell>, wired: seq<Cell>,
                                      after: seq<Cell>, n: nat, c: Cell, p: Array, c0: nat)
    requires c0 == |start| && n < c0 && Untouched(start, created) && OffGates(created, gated, n, p)
    requires OffArray(gated, wired, c0)
    requires MultNode(c) && WidthB(c) >= 2 && Wide(p, WidthA(c), WidthB(c)) && IdsApart(p, c0, |wired|)
    requires |c.outs| == WidthA(c) + WidthB(c)
    requires Moved(wired, after, n, c, p, WidthB(c), |c.outs|)
    ensures OtherCells(start, after, n)
  {
    forall k {:trigger start[k]} | 0 <= k < |start| && k != n ensures after[k] == start[k] {
      assert !IsGate(p, k);
      assert created[k] == start[k] && gated[k] == created[k] && wired[k] == gated[k];
      forall t: nat | t < |wired[k].outs| ensures after[k].outs[t] == wired[k].outs[t] {
        forall j: nat {:trigger Target(p, WidthB(c), j)} | j < |c.outs| ensures Target(p, WidthB(c), j) != (k, t) {
          TargetsApart(p, WidthA(c), WidthB(c), c0, |wired|, j, j);
        }
        assert !IsTarget(p, WidthB(c), |c.outs|, k, t);
      }
      assert after[k].outs == wired[k].outs;
    }
  }

  /** The last loop: every adder becomes a ripple of sum and carry cells. */
  method LowerAdders(g: Netlist, p: Array, n: nat, ghost start: NL)
    requires g.Ready() && WellFormed(g.Meaning()) && n < |start.cells| && Lowers(start, g.Meaning())
    requires OtherCells(start.cells, g.cells, n) && Undriving(g.cells[n])
    requires IdsApart(p, |start.cells|, |g.cells|)
    requires forall k {:trigger p.adders[k]} :: 0 <= k < |p.adders| ==> CellIsAdder(g.cells, p.adders[k])
    modifies g
    ensures g.Ready() && WellFormed(g.Meaning()) && g.Steady(old(g.fence), old(g.fenced), old(g.tidy))
    ensures Lowers(start, g.Meaning())
    ensures OtherCells(start.cells, g.cells, n) && Undriving(g.cells[n])
    ensures forall k {:trigger p.adders[k]} :: 0 <= k < |p.adders| ==>
      p.adders[k] < |g.cells| && Undriving(g.cells[p.adders[k]])
  {
    hide Netlist.Valid, Consistent, SameSequential, Netlist.Ready, Lowers, AddNode;
    for i := 0 to |p.adders|
      invariant g.Ready() && WellFormed(g.Meaning()) && g.Steady(old(g.fence), old(g.fenced), old(g.tidy))
      invariant Lowers(start, g.Meaning())
      invariant OtherCells(start.cells, g.cells, n) && Undriving(g.cells[n])
      invariant forall k {:trigger p.adders[k]} :: i <= k < |p.adders| ==> CellIsAdder(g.cells, p.adders[k])
      invariant forall k {:trigger p.adders[k]} :: 0 <= k < i ==>
        p.adders[k] < |g.cells| && Undriving(g.cells[p.adders[k]])
    {
      ghost var mid := g.Meaning();
      Adders.InstantiateAddWCarry(g, p.adders[i]);
      LowersTransitive(start, mid, g.Meaning());
      assert forall k {:trigger p.adders[k]} :: 0 <= k < |p.adders| && k != i ==>
        g.cells[p.adders[k]] == mid.cells[p.adders[k]];
      assert g.cells[n] == mid.cells[n];
    }
  }

  /** A multiplication becomes AND gates and ripple adders, for every width of A and every width of B from 2; a B of
      one bit is refused. The netlist behaves as before on all its nets. */
  method InstantiateSimpleSoftMultiplier(g: Netlist, n: nat) returns (ok: bool)
    requires g.Ready() && WellFormed(g.Meaning()) && n < |g.cells| && MultNode(g.cells[n])
    modifies g
    ensures g.Ready() && WellFormed(g.Meaning()) && g.Steady(old(g.fence), old(g.fenced), old(g.tidy))
    ensures ok <==> WidthB(old(g.cells[n])) >= 2
    ensures ok ==>
      Lowers(old(g.Meaning()), g.Meaning()) && OtherCells(old(g.cells), g.cells, n) && Undriving(g.cells[n])
    ensures !ok ==> g.Meaning() == old(g.Meaning())
  {
    ghost var start, c := g.Meaning(), g.cells[n];
    assert NodeOk(g.nodes[n], g.pins, n, c);
    var a, b, w := g.nodes[n].inPorts[0].width, g.nodes[n].inPorts[1].width, g.nodes[n].outPorts[0];
    ok := b != 1;
    if ok {
      ghost var wired;
      var p;
      p, wired := BuildArray(g, n, a, b, w, c);
      forall k {:trigger p.adders[k]} | 0 <= k < |p.adders| ensures CellIsAdder(g.cells, p.adders[k]) {
        FinishedAdders(wired, g.cells, n, c, p, g.zeroNet, |start.cells|, k);
      }
      LowerAdders(g, p, n, start);
    }
  }
}
