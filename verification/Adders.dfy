/** instantiate_add_w_carry: an adder node becomes a ripple of sum and carry cells. */
module Adders {
  import opened Wrappers
  import opened Semantics
  import opened Runs
  import opened Netlists
  import opened RippleCells
  import opened RippleBuild

  /** The operand pins from position `i` on, and the output pins from `i` on, are still on the node. */
  ghost predicate Remaining(now: Cell, c: Cell, i: nat)
    requires |c.inPorts| == 2
  {
    var wa := c.inPorts[0].width;
    && now.kind == c.kind && |now.ins| == |c.ins| && |now.outs| == |c.outs|
    && (forall k :: 0 <= k < |c.ins| ==>
          now.ins[k] == c.ins[k] || (now.ins[k] == None && if k < wa then k < i else k - wa < i))
    && (forall k :: 0 <= k < |c.outs| ==> now.outs[k] == if k < i then None else c.outs[k])
  }

  /** Position `i`: both operands to the two cells, the output pin to the sum cell. */
  method WirePosition(g: Netlist, n: nat, ghost c: Cell, i: nat, s: nat, cy: nat, wa: nat, wb: nat, withCarry: bool,
                      ghost cin: Option<nat>)
    requires g.Ready() && n < |g.cells| && s < |g.cells| && cy < |g.cells| && n != s && n != cy && s != cy
    requires AddNode(c) && i < |c.outs| && wa == c.inPorts[0].width && wb == c.inPorts[1].width
    requires Remaining(g.cells[n], c, i)
    requires g.fence.floor <= s && g.fence.floor <= cy
    requires g.cells[s] == ThreeInput(AdderFunc, [cin, None, None], None)
    requires g.cells[cy] == ThreeInput(CarryFunc, [if withCarry then cin else None, None, None], None)
    modifies g
    ensures g.Ready() && |g.nets| == |old(g.nets)| && g.Steady(old(g.fence), old(g.fenced), old(g.tidy))
    ensures OnlyChanged(old(g.cells), g.cells, n, s, cy) && Remaining(g.cells[n], c, i + 1)
    ensures var a := if i < wa then c.ins[i] else Some(g.zeroNet); var b := if i < wb then c.ins[wa + i]
      else Some(g.zeroNet);
      && g.cells[s] == ThreeInput(AdderFunc, [cin, a, b], c.outs[i])
      && g.cells[cy] == ThreeInput(CarryFunc, if withCarry then [cin, a, b] else [None, None, None], None)
  {
    hide Netlist.Valid, Fenced, NodeBound, NodeOk, PinOk, Netlist.Tidy;
    ghost var a := if i < wa then c.ins[i] else Some(g.zeroNet);
    ghost var b := if i < wb then c.ins[wa + i] else Some(g.zeroNet);
    FeedOperand(g, n, i, i < wa, s, cy, 1, withCarry);
    assert g.cells[s].ins == [cin, a, None];
    assert g.cells[cy].ins == if withCarry then [cin, a, None] else [None, None, None];
    FeedOperand(g, n, i + wa, i < wb, s, cy, 2, withCarry);
    assert g.cells[s].ins == [cin, a, b];
    assert g.cells[cy].ins == if withCarry then [cin, a, b] else [None, None, None];
    assert g.cells[n].outs[i] == c.outs[i] && c.outs[i].Some?;
    g.RemapOutput(n, i, s, 0);
    assert g.cells[s].outs == [c.outs[i]];
  }

  function Grounded(ch: Chain, j: nat): Option<nat> {
    if j == 0 then Some(ch.cin) else None
  }

  /** Positions below `i` have their operands, the others are as created. */
  ghost predicate OperandsWired(cells: seq<Cell>, sums: seq<nat>, cys: seq<nat>, ch: Chain, i: nat)
    requires ch.Shaped() && |sums| == |cys| == |ch.outs|
  {
    && (forall j {:trigger sums[j]} :: 0 <= j < |sums| ==>
          CellIs(cells, sums[j], if j < i then ThreeInput(AdderFunc, [Grounded(ch, j), ch.a[j], ch.b[j]], ch.outs[j])
                                 else ThreeInput(AdderFunc, [Grounded(ch, j), None, None], None)))
    && (forall j {:trigger cys[j]} :: 0 <= j < |cys| - 1 ==>
          CellIs(cells, cys[j], if j < i then ThreeInput(CarryFunc, [Grounded(ch, j), ch.a[j], ch.b[j]], None)
                                else ThreeInput(CarryFunc, [Grounded(ch, j), None, None], None)))
    && CellIs(cells, cys[|cys| - 1], ThreeInput(CarryFunc, Nones(3), None))
  }

  /** Sum and carry cells are created alternately. */
  ghost predicate Alternating(sums: seq<nat>, cys: seq<nat>, c0: nat) {
    && |sums| == |cys|
    && (forall j {:trigger sums[j]} :: 0 <= j < |sums| ==> sums[j] == c0 + 2 * j)
    && (forall j {:trigger cys[j]} :: 0 <= j < |cys| ==> cys[j] == c0 + 2 * j + 1)
  }

  method CreateCells(g: Netlist, w: nat) returns (sums: seq<nat>, cys: seq<nat>)
    requires g.Ready()
    modifies g
    ensures g.Ready() && |g.nets| == |old(g.nets)| && g.Steady(old(g.fence), old(g.fenced), old(g.tidy))
    ensures |sums| == w && Alternating(sums, cys, |old(g.cells)|)
    ensures |g.cells| == |old(g.cells)| + 2 * w && g.cells[..|old(g.cells)|] == old(g.cells)
    ensures forall j {:trigger sums[j]} :: 0 <= j < w ==> g.cells[sums[j]] == ThreeInput(AdderFunc, Nones(3), None)
    ensures forall j {:trigger cys[j]} :: 0 <= j < w ==> g.cells[cys[j]] == ThreeInput(CarryFunc, Nones(3), None)
  {
    sums, cys := [], [];
    for i := 0 to w
      invariant g.Ready() && |g.nets| == |old(g.nets)| && g.Steady(old(g.fence), old(g.fenced), old(g.tidy))
      invariant |sums| == i && Alternating(sums, cys, |old(g.cells)|)
      invariant |g.cells| == |old(g.cells)| + 2 * i && g.cells[..|old(g.cells)|] == old(g.cells)
      invariant forall j {:trigger sums[j]} :: 0 <= j < i ==> g.cells[sums[j]] == ThreeInput(AdderFunc, Nones(3), None)
      invariant forall j {:trigger cys[j]} :: 0 <= j < i ==> g.cells[cys[j]] == ThreeInput(CarryFunc, Nones(3), None)
    {
      assert Nones(1) == [None];
      var s := g.AllocateNode(AdderFunc, [Bit1, Bit1, Bit1], 3, [1], 1);
      var c := g.AllocateNode(CarryFunc, [Bit1, Bit1, Bit1], 3, [1], 1);
      sums, cys := sums + [s], cys + [c];
    }
  }

  /** The cells of position `i` wait for their operands. */
  lemma {:induction false} OperandNext(cells: seq<Cell>, n: nat, sums: seq<nat>, cys: seq<nat>, ch: Chain, i: nat, c0: nat)
    requires ch.Shaped() && |sums| == |cys| == |ch.outs| && i < |sums| && n < c0 && Alternating(sums, cys, c0)
    requires OperandsWired(cells, sums, cys, ch, i)
    ensures c0 <= sums[i] < |cells| && c0 <= cys[i] < |cells| && sums[i] != cys[i]
    ensures cells[sums[i]] == ThreeInput(AdderFunc, [Grounded(ch, i), None, None], None)
    ensures cells[cys[i]]
         == ThreeInput(CarryFunc, [if i < |sums| - 1 then Grounded(ch, i) else None, None, None], None)
  {
    assert Nones(3) == [None, None, None];
  }

  lemma {:induction false} ChainBits(c: Cell, zero: nat, ch: Chain, i: nat)
    requires AddNode(c) && ch == AddChain(c, zero, ch.carries) && i < |c.outs|
    ensures |ch.outs| == |c.outs| && i < |ch.a| && i < |ch.b| && ch.outs[i] == c.outs[i]
    ensures ch.a[i] == if i < c.inPorts[0].width then c.ins[i] else Some(zero)
    ensures ch.b[i] == if i < c.inPorts[1].width then c.ins[c.inPorts[0].width + i] else Some(zero)
  {
  }

  lemma {:induction false} StillOthers(before: seq<Cell>, cells: seq<Cell>, cells': seq<Cell>, n: nat, s: nat, cy: nat)
    requires OtherCells(before, cells, n) && OnlyChanged(cells, cells', n, s, cy) && |before| <= s && |before| <= cy
    ensures OtherCells(before, cells', n)
  {
  }

  method WireOperands(g: Netlist, n: nat, ghost before: seq<Cell>, ghost ch: Chain, sums: seq<nat>, cys: seq<nat>,
                      wa: nat, wb: nat, w: nat)
    requires g.Ready() && n < |before| && AddNode(before[n]) && ch.Shaped()
    requires ch == AddChain(before[n], g.zeroNet, ch.carries)
    requires wa == before[n].inPorts[0].width && wb == before[n].inPorts[1].width && w == |before[n].outs|
    requires |sums| == w && Alternating(sums, cys, |before|) && g.fence.floor <= |before|
    requires |g.cells| == |before| + 2 * w && OtherCells(before, g.cells, n) && g.cells[n] == before[n]
    requires OperandsWired(g.cells, sums, cys, ch, 0)
    modifies g
    ensures g.Ready() && |g.nets| == |old(g.nets)| && g.Steady(old(g.fence), old(g.fenced), old(g.tidy))
    ensures |g.cells| == |before| + 2 * w && OtherCells(before, g.cells, n) && Remaining(g.cells[n], before[n], w)
    ensures OperandsWired(g.cells, sums, cys, ch, w)
  {
    hide Netlist.Ready, OperandsWired, OtherCells, ThreeInput;
    for i := 0 to w
      invariant g.Ready() && |g.nets| == |old(g.nets)| && g.Steady(old(g.fence), old(g.fenced), old(g.tidy))
      invariant |g.cells| == |before| + 2 * w && OtherCells(before, g.cells, n) && Remaining(g.cells[n], before[n], i)
      invariant OperandsWired(g.cells, sums, cys, ch, i)
    {
      ghost var cells0 := g.cells;
      ChainBits(before[n], g.zeroNet, ch, i);
      OperandNext(cells0, n, sums, cys, ch, i, |before|);
      assert Nones(3) == [None, None, None];
      WirePosition(g, n, before[n], i, sums[i], cys[i], wa, wb, i < w - 1, Grounded(ch, i));
      OperandStep(cells0, g.cells, n, sums, cys, ch, i, |before|);
      StillOthers(before, cells0, g.cells, n, sums[i], cys[i]);
    }
  }

  lemma {:induction false} OperandStep(cells: seq<Cell>, cells': seq<Cell>, n: nat, sums: seq<nat>, cys: seq<nat>,
                                       ch: Chain, i: nat, c0: nat)
    requires ch.Shaped() && |sums| == |cys| == |ch.outs| && i < |ch.outs| && n < c0 && Alternating(sums, cys, c0)
    requires OperandsWired(cells, sums, cys, ch, i)
    requires OnlyChanged(cells, cells', n, sums[i], cys[i])
    requires cells'[sums[i]] == ThreeInput(AdderFunc, [Grounded(ch, i), ch.a[i], ch.b[i]], ch.outs[i])
    requires cells'[cys[i]]
      == ThreeInput(CarryFunc, if i < |cys| - 1 then [Grounded(ch, i), ch.a[i], ch.b[i]] else Nones(3), None)
    ensures OperandsWired(cells', sums, cys, ch, i + 1)
  {
    forall j {:trigger sums[j]} | 0 <= j < |sums|
      ensures j != i ==> cells'[sums[j]] == cells[sums[j]]
    {
    }
    forall j {:trigger cys[j]} | 0 <= j < |cys|
      ensures j != i ==> cells'[cys[j]] == cells[cys[j]]
    {
    }
  }

  /** The carry nets, which connect_nodes creates one after the other. */
  function CarryNets(base: nat, w: nat): (r: seq<nat>)
    ensures |r| == (if w == 0 then 0 else w - 1) && FreshNets(r, base)
    ensures forall k {:trigger r[k]} :: 0 <= k < |r| ==> r[k] == base + k
  {
    seq(if w == 0 then 0 else w - 1, (k: nat) => base + k)
  }

  ghost predicate AdderBuilt(before: NL, cells: seq<Cell>, n: nat, sums: seq<nat>, cys: seq<nat>)
    requires n < |before.cells| && AddNode(before.cells[n])
  {
    var w := |before.cells[n].outs|;
    && |sums| == w && Alternating(sums, cys, |before.cells|)
    && |cells| == |before.cells| + 2 * w && OtherCells(before.cells, cells, n)
      && Remaining(cells[n], before.cells[n], w)
    && CarriesWired(cells, sums, cys[..w - 1], AddChain(before.cells[n], before.zero, CarryNets(before.nets, w)), w)
    && CellIs(cells, cys[w - 1], ThreeInput(CarryFunc, Nones(3), None))
  }

  /** The first loop, and the grounded carry in. */
  method CreateGrounded(g: Netlist, w: nat, ghost ch: Chain) returns (sums: seq<nat>, cys: seq<nat>)
    requires g.Ready() && ch.Shaped() && w == |ch.outs| && ch.cin == g.zeroNet
    modifies g
    ensures g.Ready() && |g.nets| == |old(g.nets)| && g.Steady(old(g.fence), old(g.fenced), old(g.tidy))
    ensures |sums| == w && Alternating(sums, cys, |old(g.cells)|)
    ensures |g.cells| == |old(g.cells)| + 2 * w && OtherCells(old(g.cells), g.cells, |old(g.cells)|)
    ensures OperandsWired(g.cells, sums, cys, ch, 0)
  {
    sums, cys := CreateCells(g, w);
    ghost var created := g.cells;
    g.AttachZero(sums[0], 0);
    if w > 1 { g.AttachZero(cys[0], 0); }
    CreatedWired(old(g.cells), created, g.cells, sums, cys, ch);
  }

  method BuildAdder(g: Netlist, n: nat) returns (ghost sums: seq<nat>, ghost cys: seq<nat>)
    requires g.Ready() && n < |g.cells| && AddNode(g.cells[n])
    modifies g
    ensures g.Ready() && g.Steady(old(g.fence), old(g.fenced), old(g.tidy))
    ensures |g.nets| == |old(g.nets)| + |old(g.cells[n].outs)| - 1
    ensures AdderBuilt(old(g.Meaning()), g.cells, n, sums, cys)
  {
    hide CarriesWired;
    ghost var before := g.Meaning();
    assert NodeOk(g.nodes[n], g.pins, n, g.cells[n]);
    var w := |g.nodes[n].outPins|;
    var wa, wb := g.nodes[n].inPorts[0].width, g.nodes[n].inPorts[1].width;
    ghost var ch := AddChain(g.cells[n], g.zeroNet, CarryNets(before.nets, w));
    var ss, cs := CreateGrounded(g, w, ch);
    assert before.cells[n] == g.cells[n];
    WireOperands(g, n, before.cells, ch, ss, cs, wa, wb, w);
    ghost var wired := g.cells;
    OperandsReady(wired, ss, cs, ch);
    WireCarries(g, ch, ss, cs[..w - 1], w, cs[w - 1]);
    CarriesLeaveRest(before.cells, wired, g.cells, n, ss, cs);
    sums, cys := ss, cs;
  }

  lemma {:induction false} CreatedWired(before: seq<Cell>, created: seq<Cell>, cells: seq<Cell>, sums: seq<nat>,
                                        cys: seq<nat>, ch: Chain)
    requires ch.Shaped() && |sums| == |ch.outs| && Alternating(sums, cys, |before|)
    requires |created| == |before| + 2 * |sums| && created[..|before|] == before
    requires forall j {:trigger sums[j]} :: 0 <= j < |sums| ==>
      created[sums[j]] == ThreeInput(AdderFunc, Nones(3), None)
    requires forall j {:trigger cys[j]} :: 0 <= j < |sums| ==> created[cys[j]] == ThreeInput(CarryFunc, Nones(3), None)
    requires HasIn(created, sums[0], 0) && HasIn(created, cys[0], 0)
    requires cells == GroundFirst(created, sums[0], cys[0], ch.cin, |sums| > 1)
    ensures OperandsWired(cells, sums, cys, ch, 0) && OtherCells(before, cells, |before|) && |cells| == |created|
  {
    assert Nones(3) == [None, None, None];
    assert Nones(3)[0 := Some(ch.cin)] == [Some(ch.cin), None, None];
    forall j {:trigger sums[j]} | 0 <= j < |sums|
      ensures j > 0 ==> cells[sums[j]] == created[sums[j]] && cells[cys[j]] == created[cys[j]]
    {
      assert cys[j] == |before| + 2 * j + 1;
    }
    forall j {:trigger before[j]} | 0 <= j < |before|
      ensures cells[j] == before[j]
    {
      assert created[j] == created[..|before|][j];
    }
  }

  function GroundFirst(cells: seq<Cell>, s: nat, cy: nat, e: nat, both: bool): seq<Cell>
    requires HasIn(cells, s, 0) && HasIn(cells, cy, 0) && s != cy
  {
    if both then SetIn(SetIn(cells, s, 0, Some(e)), cy, 0, Some(e)) else SetIn(cells, s, 0, Some(e))
  }

  lemma {:induction false} OperandsReady(cells: seq<Cell>, sums: seq<nat>, cys: seq<nat>, ch: Chain)
    requires ch.Shaped() && |sums| == |cys| == |ch.outs| && OperandsWired(cells, sums, cys, ch, |sums|)
    ensures CarriesWired(cells, sums, cys[..|cys| - 1], ch, 1)
  {
    forall j {:trigger cys[..|cys| - 1][j]} | 0 <= j < |cys| - 1
      ensures CellIs(cells, cys[..|cys| - 1][j],
        ThreeInput(CarryFunc, [if j < 1 then CarryIn(ch.cin, ch.carries, j) else None, ch.a[j], ch.b[j]], None))
    {
      assert cys[..|cys| - 1][j] == cys[j];
    }
  }

  lemma {:induction false} CarriesLeaveRest(before: seq<Cell>, wired: seq<Cell>, cells: seq<Cell>, n: nat,
                                            sums: seq<nat>, cys: seq<nat>)
    requires n < |before| && OtherCells(before, wired, n) && Alternating(sums, cys, |before|) && 1 <= |sums|
    requires |wired| == |before| + 2 * |sums|
    requires FrameLists(wired, cells, sums, cys[..|sums| - 1])
    ensures OtherCells(before, cells, n) && cells[n] == wired[n]
    ensures cells[cys[|sums| - 1]] == wired[cys[|sums| - 1]]
  {
    var last := cys[|sums| - 1];
    assert forall j :: 0 <= j < |sums| ==> sums[j] != last;
    assert forall j :: 0 <= j < |sums| - 1 ==> cys[..|sums| - 1][j] == cys[j] && cys[j] != last;
    assert Unlisted(last, sums, cys[..|sums| - 1]);
    forall k | 0 <= k < |before|
      ensures cells[k] == wired[k]
    {
      assert forall j :: 0 <= j < |sums| ==> sums[j] != k && cys[j] != k;
      assert Unlisted(k, sums, cys[..|sums| - 1]);
    }
  }

  /** The whole adder. The node keeps no output pin; every behaviour of the netlist is preserved. */
  method InstantiateAddWCarry(g: Netlist, n: nat)
    requires g.Ready() && WellFormed(g.Meaning()) && n < |g.cells| && AddNode(g.cells[n])
    modifies g
    ensures g.Ready() && WellFormed(g.Meaning()) && g.Steady(old(g.fence), old(g.fenced), old(g.tidy))
    ensures OtherCells(old(g.cells), g.cells, n) && Undriving(g.cells[n])
    ensures Lowers(old(g.Meaning()), g.Meaning())
  {
    ghost var sums, cys := BuildAdder(g, n);
    AdderLowers(old(g.Meaning()), g.Meaning(), n, sums, cys);
  }

  lemma {:induction false} AdderLowers(a: NL, b: NL, n: nat, sums: seq<nat>, cys: seq<nat>)
    requires WellFormed(a) && n < |a.cells| && AddNode(a.cells[n])
    requires b == NL(b.cells, a.nets + |a.cells[n].outs| - 1, a.zero, a.one, a.pad)
    requires AdderBuilt(a, b.cells, n, sums, cys)
    ensures Lowers(a, b) && WellFormed(b) && Undriving(b.cells[n])
  {
    var ch := AddChain(a.cells[n], a.zero, CarryNets(a.nets, |sums|));
    var extra := AddCells(ch);
    AdderDone(a.cells, b.cells, n, sums, cys, ch);
    assert InRange(a.cells[n], a.nets);
    AddImplements(a.cells[n], a.zero, a.one, ch.carries, a.nets);
    ChainInRange(ch, b.nets);
    AdderCellsInRange(ch, b.nets);
    ReplaceCell(a, n, b.cells[n], extra, b);
    ReplacedWellFormed(a, n, b.cells[n], extra, b);
  }

  lemma {:induction false} AdderDone(before: seq<Cell>, cells: seq<Cell>, n: nat, sums: seq<nat>, cys: seq<nat>,
                                     ch: Chain)
    requires n < |before| && ch.Shaped() && |sums| == |ch.outs| && Alternating(sums, cys, |before|)
    requires |cells| == |before| + 2 * |sums| && OtherCells(before, cells, n)
    requires CarriesWired(cells, sums, cys[..|sums| - 1], ch, |sums|)
    requires CellIs(cells, cys[|sums| - 1], ThreeInput(CarryFunc, Nones(3), None))
    ensures cells == before[n := cells[n]] + AddCells(ch)
  {
    forall k | |before| <= k < |cells|
      ensures cells[k] == AddCells(ch)[k - |before|]
    {
      AdderCellAt(cells, sums, cys, ch, |before|, (k - |before|) / 2);
    }
  }

  lemma {:induction false} AdderCellAt(cells: seq<Cell>, sums: seq<nat>, cys: seq<nat>, ch: Chain, c0: nat, j: nat)
    requires ch.Shaped() && j < |sums| == |ch.outs| && Alternating(sums, cys, c0) && |cells| == c0 + 2 * |sums|
    requires CarriesWired(cells, sums, cys[..|sums| - 1], ch, |sums|)
    requires CellIs(cells, cys[|sums| - 1], ThreeInput(CarryFunc, Nones(3), None))
    ensures cells[c0 + 2 * j] == AddCells(ch)[2 * j] && cells[c0 + 2 * j + 1] == AddCells(ch)[2 * j + 1]
  {
    assert ch.outs[j].Some?;
    assert sums[j] == c0 + 2 * j && cys[j] == c0 + 2 * j + 1;
    assert CellIs(cells, sums[j], ch.SumCell(j));
    if j < |sums| - 1 {
      assert cys[..|sums| - 1][j] == cys[j];
      assert CellIs(cells, cys[j], ch.CarryCell(j));
    }
  }
}
