/** split_sp_memory_depth and split_dp_memory_depth on the netlist. */
module MemoryDepth {
  import opened Wrappers
  import opened Bits
  import opened Semantics
  import opened Runs
  import opened Netlists
  import opened RippleCells
  import opened MemoryPorts
  import opened BankSplit
  import opened SpSplit
  import BankRealize

  ghost predicate SameBut2(before: seq<Cell>, after: seq<Cell>, n: nat, h: nat) {
    && |before| <= |after|
    && forall k {:trigger after[k]} :: 0 <= k < |before| && k != n && k != h ==> after[k] == before[k]
  }

  /** Copies of all input pins but the one in slot `skip`. */
  method CopyInputsBut(g: Netlist, n: nat, h: nat, skip: nat)
    requires g.Ready() && n < |g.cells| && h < |g.cells| && n != h && AllConnected(g.cells[n].ins)
    requires g.cells[h].ins == Nones(|g.cells[n].ins|)
    modifies g
    ensures g.Ready() && |g.nets| == |old(g.nets)| && (old(g.tidy) ==> g.tidy) && g.KeepsFree(old(g.pins))
    ensures |g.cells| == |old(g.cells)| && SameBut2(old(g.cells), g.cells, h, h)
    ensures g.cells[h] == old(g.cells[h]).(ins := g.cells[h].ins) && |g.cells[h].ins| == |g.cells[n].ins|
    ensures forall k :: 0 <= k < |g.cells[n].ins| ==> g.cells[h].ins[k] == if k == skip then None else g.cells[n].ins[k]
  {
    g.EmptySlots(n);
    for j := 0 to |g.nodes[n].inPins|
      invariant g.Ready() && |g.nets| == |old(g.nets)| && (old(g.tidy) ==> g.tidy) && g.KeepsFree(old(g.pins))
      invariant |g.cells| == |old(g.cells)| && SameBut2(old(g.cells), g.cells, h, h)
      invariant g.cells[h] == old(g.cells[h]).(ins := g.cells[h].ins) && |g.cells[h].ins| == |g.cells[n].ins|
      invariant forall k :: 0 <= k < |g.cells[n].ins| ==>
        g.cells[h].ins[k] == if k == skip || k >= j then None else g.cells[n].ins[k]
    {
      if j != skip {
        g.CopyInput(n, j, h, j);
      }
    }
  }

  /** AND of the address pin `p` and the enable of `n`, which it replaces. */
  method GateUpper(g: Netlist, n: nat, we: nat, p: nat) returns (a: nat)
    requires g.Ready() && HasIn(g.cells, n, we) && g.cells[n].ins[we].Some?
    requires g.Loose(p) && g.pins[p].dir == In && g.pins[p].net.Some?
    modifies g
    ensures g.Ready() && |g.nets| == |old(g.nets)| + 1 && (old(g.tidy) ==> g.tidy)
    ensures a == |old(g.cells)| && |g.cells| == a + 1 && SameBut2(old(g.cells), g.cells, n, n)
    ensures g.cells[a] == And2(old(g.pins[p].net), old(g.cells[n].ins[we]), |old(g.nets)|)
    ensures g.cells[n] == old(g.cells[n]).(ins := old(g.cells[n].ins)[we := Some(|old(g.nets)|)])
  {
    hide Netlist.Valid;
    assert Nones(1) == [None] && Nones(2) == [None, None];
    a := g.AllocateNode(LogicalAnd, [Bit1, Bit1], 2, [1], 1);
    g.RemapInput(n, we, a, 1);
    g.EmptySlots(a);
    g.AddInputPinToNode(a, p, 0);
    var x := g.ConnectNodes(a, 0, n, we);
  }

  /** An inverter of the first input of node `a`; its output is still to be connected. */
  method InverterOf(g: Netlist, a: nat) returns (i: nat)
    requires g.Ready() && HasIn(g.cells, a, 0) && g.cells[a].ins[0].Some?
    modifies g
    ensures g.Ready() && |g.nets| == |old(g.nets)| && (old(g.tidy) ==> g.tidy)
    ensures i == |old(g.cells)|
    ensures g.cells == old(g.cells) + [Cell(LogicalNot, [old(g.cells[a].ins[0])], [None], [], [])]
  {
    hide Fenced, Netlist.Valid, NodeOk;
    assert Nones(1) == [None];
    i := g.AllocateNode(LogicalNot, [], 1, [], 1);
    g.CopyInput(a, 0, i, 0);
    assert g.cells[i].ins == [old(g.cells[a].ins[0])];
  }

  /** AND of the inverted address bit and the enable, both copied from slots of cell `a`, for bank `h`. */
  method GateLower(g: Netlist, a: nat, h: nat, we: nat) returns (i: nat)
    requires g.Ready() && a != h && HasIn(g.cells, a, 1) && HasIn(g.cells, h, we) && AllConnected(g.cells[a].ins)
    modifies g
    ensures g.Ready() && |g.nets| == |old(g.nets)| + 2
    ensures old(g.tidy) && old(g.cells[h].ins[we]) == None ==> g.tidy
    ensures i == |old(g.cells)| && |g.cells| == i + 2 && SameBut2(old(g.cells), g.cells, h, h)
    ensures g.cells[i] == NotCell(g.cells[a].ins[0], |old(g.nets)|)
    ensures g.cells[i + 1] == And2(Some(|old(g.nets)|), g.cells[a].ins[1], |old(g.nets)| + 1)
    ensures g.cells[h] == old(g.cells[h]).(ins := old(g.cells[h].ins)[we := Some(|old(g.nets)| + 1)])
  {
    hide Fenced, Netlist.Valid, NodeBound, Netlist.Tidy, NodeOk, Nones;
    assert Nones(2) == [None, None];
    i := InverterOf(g, a);
    var a' := g.AllocateNode(LogicalAnd, [Bit1, Bit1], 2, [1], 1);
    var x := g.ConnectNodes(i, 0, a', 0);
    g.CopyInput(a, 1, a', 1);
    x := g.ConnectNodes(a', 0, h, we);
  }

  /** The MUX_2 of one output with its select pins: the registered address bit and its complement. */
  method MuxSelects(g: Netlist, ff: nat, ghost reg: nat) returns (mux: nat)
    requires g.Ready() && HasOut(g.cells, ff, 0) && g.cells[ff].outs == [Some(reg)]
    modifies g
    ensures g.Ready() && |g.nets| == |old(g.nets)| + 1 && (old(g.tidy) ==> g.tidy) && g.KeepsFree(old(g.pins))
    ensures mux == |old(g.cells)| && |g.cells| == mux + 2 && SameBut2(old(g.cells), g.cells, mux, mux)
    ensures g.cells[mux] == Cell(Mux2, [Some(reg), Some(|old(g.nets)|), None, None], [None], [Pair, Pair], [1])
    ensures g.cells[mux + 1] == NotCell(Some(reg), |old(g.nets)|)
  {
    hide Netlist.Valid;
    assert Nones(1) == [None] && Nones(4) == [None, None, None, None];
    mux := g.AllocateNode(Mux2, [Pair, Pair], 4, [1], 1);
    var x := g.ConnectNodes(ff, 0, mux, 0);
    var inv := g.AllocateNode(LogicalNot, [], 1, [], 1);
    x := g.ConnectNodes(ff, 0, inv, 0);
    x := g.ConnectNodes(inv, 0, mux, 1);
  }

  /** One output of the split memory: the output pin moves to the mux, both banks drive its data pins. */
  method MuxOutput(g: Netlist, n: nat, h: nat, ff: nat, j: nat, ghost reg: nat)
    requires g.Ready() && n != h && n != ff && h != ff && HasOut(g.cells, n, j) && HasOut(g.cells, h, j)
    requires HasOut(g.cells, ff, 0)
    requires g.cells[n].outs[j].Some? && g.cells[h].outs[j] == None
    requires g.cells[ff].outs == [Some(reg)]
    modifies g
    ensures g.Ready() && |g.nets| == |old(g.nets)| + 3 && (old(g.tidy) ==> g.tidy) && g.KeepsFree(old(g.pins))
    ensures var c0, e := |old(g.cells)|, |old(g.nets)|;
      && |g.cells| == c0 + 2 && SameBut2(old(g.cells), g.cells, n, h)
      && g.cells[c0] == Cell(Mux2, [Some(reg), Some(e), Some(e + 1), Some(e + 2)], [old(g.cells[n].outs[j])],
        [Pair, Pair], [1])
      && g.cells[c0 + 1] == NotCell(Some(reg), e)
      && g.cells[n] == old(g.cells[n]).(outs := old(g.cells[n].outs)[j := Some(e + 1)])
      && g.cells[h] == old(g.cells[h]).(outs := old(g.cells[h].outs)[j := Some(e + 2)])
  {
    hide Netlist.Valid, NodeBound, NodeOk, PinOk, Netlist.Tidy, Fenced, NetOk;
    ghost var was := g.cells[n].outs;
    var mux := MuxSelects(g, ff, reg);
    g.RemapOutput(n, j, mux, 0);
    var x := g.ConnectNodes(n, j, mux, 2);
    assert was[j := None][j := Some(x)] == was[j := Some(x)];
    x := g.ConnectNodes(h, j, mux, 3);
  }

  /** The output loop after `j` rounds, from cells `start` and first new net `e`: outputs `lo` to `lo + j - 1` are
      multiplexed. */
  ghost predicate Muxed(start: seq<Cell>, cells: seq<Cell>, n: nat, h: nat, reg: nat, e: nat, lo: nat, j: nat) {
    && n < |start| && h < |start| && n != h && lo + j <= |start[n].outs| && |start[h].outs| == |start[n].outs|
    && |cells| == |start| + 2 * j
    && (forall k {:trigger start[k]} :: 0 <= k < |start| && k != n && k != h ==> cells[k] == start[k])
    && cells[n] == start[n].(outs := MovedOuts(start[n].outs, lo, j, e + 1))
    && cells[h] == start[h].(outs := MovedOuts(start[h].outs, lo, j, e + 2))
    && (forall i {:trigger MuxAt(start, cells, n, reg, e, lo, i)} :: 0 <= i < j ==>
      MuxAt(start, cells, n, reg, e, lo, i))
  }

  function MovedOuts(outs: seq<Option<nat>>, lo: nat, j: nat, e: nat): (r: seq<Option<nat>>)
    ensures |r| == |outs|
    ensures forall i {:trigger r[i]} :: 0 <= i < |r| ==>
      r[i] == if lo <= i < lo + j then Some(e + 3 * (i - lo)) else outs[i]
  {
    seq(|outs|, (i: nat) requires i < |outs| => if lo <= i < lo + j then Some(e + 3 * (i - lo)) else outs[i])
  }

  ghost predicate MuxAt(start: seq<Cell>, cells: seq<Cell>, n: nat, reg: nat, e: nat, lo: nat, i: nat) {
    && n < |start| && lo + i < |start[n].outs| && |start| + 2 * i + 1 < |cells|
    && cells[|start| + 2 * i]
       == Cell(Mux2, [Some(reg), Some(e + 3 * i), Some(e + 3 * i + 1), Some(e + 3 * i + 2)], [start[n].outs[lo + i]],
         [Pair, Pair], [1])
    && cells[|start| + 2 * i + 1] == NotCell(Some(reg), e + 3 * i)
  }

  lemma {:induction false} MuxedStep(start: seq<Cell>, before: seq<Cell>, after: seq<Cell>, n: nat, h: nat, reg: nat,
                                     e: nat, lo: nat, j: nat)
    requires Muxed(start, before, n, h, reg, e, lo, j) && lo + j < |start[n].outs|
    requires |after| == |before| + 2 && SameBut2(before, after, n, h) && MuxAt(start, after, n, reg, e, lo, j)
    requires after[n] == before[n].(outs := before[n].outs[lo + j := Some(e + 3 * j + 1)])
    requires after[h] == before[h].(outs := before[h].outs[lo + j := Some(e + 3 * j + 2)])
    ensures Muxed(start, after, n, h, reg, e, lo, j + 1)
  {
    assert MovedOuts(start[n].outs, lo, j, e + 1)[lo + j := Some(e + 3 * j + 1)]
      == MovedOuts(start[n].outs, lo, j + 1, e + 1);
    assert MovedOuts(start[h].outs, lo, j, e + 2)[lo + j := Some(e + 3 * j + 2)]
      == MovedOuts(start[h].outs, lo, j + 1, e + 2);
    forall k {:trigger start[k]} | 0 <= k < |start| && k != n && k != h ensures after[k] == start[k] {
      assert after[k] == before[k];
    }
    forall i {:trigger MuxAt(start, after, n, reg, e, lo, i)} | 0 <= i < j + 1
      ensures MuxAt(start, after, n, reg, e, lo, i) {
      if i < j {
        assert MuxAt(start, before, n, reg, e, lo, i);
        assert after[|start| + 2 * i] == before[|start| + 2 * i]
          && after[|start| + 2 * i + 1] == before[|start| + 2 * i + 1];
      }
    }
  }

  /** The register drives `reg`; outputs `lo` to `lo + len - 1` are on `n` and open on `h`. */
  ghost predicate MuxStart(cells: seq<Cell>, n: nat, h: nat, ff: nat, reg: nat, lo: nat, len: nat) {
    && n != h && n != ff && h != ff && n < |cells| && h < |cells| && HasOut(cells, ff, 0)
    && cells[ff].outs == [Some(reg)] && |cells[h].outs| == |cells[n].outs| && lo + len <= |cells[n].outs|
    && forall i :: lo <= i < lo + len ==> cells[n].outs[i].Some? && cells[h].outs[i] == None
  }

  /** The loop over the outputs `lo` to `lo + len - 1` of a memory node. */
  method MuxOutputs(g: Netlist, n: nat, h: nat, ff: nat, ghost reg: nat, lo: nat, len: nat)
    requires g.Ready() && MuxStart(g.cells, n, h, ff, reg, lo, len)
    modifies g
    ensures g.Ready() && (old(g.tidy) ==> g.tidy) && |g.nets| == |old(g.nets)| + 3 * len && g.KeepsFree(old(g.pins))
    ensures Muxed(old(g.cells), g.cells, n, h, reg, |old(g.nets)|, lo, len)
  {
    hide NodeOk;
    ghost var start, e := g.cells, |g.nets|;
    assert MovedOuts(start[n].outs, lo, 0, e + 1) == start[n].outs
      && MovedOuts(start[h].outs, lo, 0, e + 2) == start[h].outs;
    for j := 0 to len
      invariant g.Ready() && (old(g.tidy) ==> g.tidy) && |g.nets| == e + 3 * j && g.KeepsFree(old(g.pins))
      invariant Muxed(start, g.cells, n, h, reg, e, lo, j)
    {
      ghost var before := g.cells;
      assert start[ff] == g.cells[ff];
      MuxOutput(g, n, h, ff, lo + j, reg);
      assert MuxAt(start, g.cells, n, reg, e, lo, j);
      MuxedStep(start, before, g.cells, n, h, reg, e, lo, j);
    }
  }

  // ----- single port -----

  ghost predicate TwoBanksDone(before: seq<Cell>, after: seq<Cell>, n: nat, addr: nat, we: nat)
    requires n < |before| && PortShape(before[n]) && addr < |before[n].inPorts|
  {
    var h, d := |before|, Dropped(before[n], addr);
    && |after| == h + 1 && SameBut2(before, after, n, n)
    && after[n] == d
    && after[h] == d.(ins := after[h].ins, outs := Nones(|d.outs|)) && |after[h].ins| == |d.ins|
    && (forall k :: 0 <= k < |d.ins| ==> after[h].ins[k] == if k == we then None else d.ins[k])
  }

  ghost predicate EnablesDone(before: seq<Cell>, after: seq<Cell>, n: nat, h: nat, we: nat, bit: Option<nat>, e: nat) {
    var up := |before|;
    && HasIn(before, n, we) && HasIn(before, h, we) && n != h
    && |after| == up + 3 && SameBut2(before, after, n, h)
    && after[up] == And2(bit, before[n].ins[we], e) && after[up + 1] == NotCell(bit, e + 1)
    && after[up + 2] == And2(Some(e + 1), before[n].ins[we], e + 2)
    && after[n] == before[n].(ins := before[n].ins[we := Some(e)])
    && after[h] == before[h].(ins := before[h].ins[we := Some(e + 2)])
  }

  /** The address pin is taken out of `n`, and node `h` is created with copies of all other pins but the enable. */
  method TwoBanks(g: Netlist, n: nat, addr: nat, at: nat, we: nat) returns (h: nat, p: nat)
    requires g.Ready() && n < |g.cells| && Splittable(g.cells[n])
    requires addr == FindPort(g.cells[n].inPorts, Addr) && at == Offset(g.cells[n].inPorts, addr)
    modifies g
    ensures g.Ready() && (old(g.tidy) ==> g.tidy) && |g.nets| == |old(g.nets)|
    ensures h == |old(g.cells)| && TwoBanksDone(old(g.cells), g.cells, n, addr, we)
    ensures g.Loose(p) && g.pins[p].dir == In && g.pins[p].net == AddrBit(old(g.cells[n]), 0)
  {
    hide Fenced, PinOk, NetOk, FindPort;
    ghost var c := g.cells[n];
    PortSlots(c, addr);
    DroppedShape(c, addr);
    assert c.ins[at] == AddrBit(c, 0);
    p := g.RemoveInputPin(n, at, addr);
    ghost var d := g.cells[n];
    assert d == Dropped(c, addr);
    g.EmptySlots(n);
    assert NodeOk(g.nodes[n], g.pins, n, g.cells[n]);
    h := g.AllocateNode(SpMemory, g.nodes[n].inPorts, |g.nodes[n].inPins|, [|g.nodes[n].outPins|],
      |g.nodes[n].outPins|);
    CopyInputsBut(g, n, h, we);
  }

  /** A register of the first input of cell `a`, clocked from slot `clk` of `n`. */
  ghost predicate Registered(before: seq<Cell>, after: seq<Cell>, a: nat, n: nat, clk: nat, e: nat) {
    && HasIn(before, a, 0) && HasIn(before, n, clk)
    && |after| == |before| + 1 && SameBut2(before, after, |before|, |before|)
    && after[|before|] == Cell(FlipFlop, [before[a].ins[0], before[n].ins[clk]], [Some(e)], [Bit1, Bit1], [1])
  }

  /** The register of the low address bit, clocked like the memory. */
  method RegisterBit(g: Netlist, a: nat, n: nat, clk: nat) returns (ff: nat)
    requires g.Ready() && HasIn(g.cells, a, 0) && HasIn(g.cells, n, clk) && g.cells[a].ins[0].Some?
    requires g.cells[n].ins[clk].Some?
    modifies g
    ensures g.Ready() && (old(g.tidy) ==> g.tidy) && |g.nets| == |old(g.nets)| + 1
    ensures ff == |old(g.cells)| && Registered(old(g.cells), g.cells, a, n, clk, |old(g.nets)|)
  {
    assert Nones(1) == [None] && Nones(2) == [None, None];
    ff := g.AllocateNode(FlipFlop, [Bit1, Bit1], 2, [1], 1);
    g.CopyInput(a, 0, ff, 0);
    g.CopyInput(n, clk, ff, 1);
    var x := g.DriveNewNet(ff, 0);
  }

  /** The enables of both banks: the address pin `p` and the enable of `n`. */
  method GateBanks(g: Netlist, n: nat, h: nat, we: nat, p: nat) returns (up: nat)
    requires g.Ready() && n != h && HasIn(g.cells, n, we) && HasIn(g.cells, h, we)
    requires g.cells[n].ins[we].Some? && g.cells[h].ins[we] == None
    requires g.Loose(p) && g.pins[p].dir == In && g.pins[p].net.Some?
    modifies g
    ensures g.Ready() && |g.nets| == |old(g.nets)| + 3 && (old(g.tidy) ==> g.tidy)
    ensures up == |old(g.cells)| && EnablesDone(old(g.cells), g.cells, n, h, we, old(g.pins[p].net), |old(g.nets)|)
  {
    up := GateUpper(g, n, we, p);
    assert AllConnected(g.cells[up].ins);
    var inv := GateLower(g, up, h, we);
  }

  /** The three gates and the register, for banks `n` and `h` with enable slot `we` and clock slot `clk`. */
  ghost predicate GatesDone(before: seq<Cell>, after: seq<Cell>, n: nat, h: nat, we: nat, clk: nat, bit: Option<nat>,
                            e: nat) {
    var up := |before|;
    && HasIn(before, n, we) && HasIn(before, h, we) && HasIn(before, n, clk) && n != h
    && |after| == up + 4 && SameBut2(before, after, n, h)
    && after[up] == And2(bit, before[n].ins[we], e) && after[up + 1] == NotCell(bit, e + 1)
    && after[up + 2] == And2(Some(e + 1), before[n].ins[we], e + 2)
    && after[up + 3] == Cell(FlipFlop, [bit, before[n].ins[clk]], [Some(e + 3)], [Bit1, Bit1], [1])
    && after[n] == before[n].(ins := before[n].ins[we := Some(e)])
    && after[h] == before[h].(ins := before[h].ins[we := Some(e + 2)])
  }

  method GateAndRegister(g: Netlist, n: nat, h: nat, we: nat, clk: nat, p: nat) returns (ff: nat)
    requires g.Ready() && n != h && HasIn(g.cells, n, we) && HasIn(g.cells, h, we) && HasIn(g.cells, n, clk)
    requires we != clk
    requires g.cells[n].ins[we].Some? && g.cells[h].ins[we] == None && g.cells[n].ins[clk].Some?
    requires g.Loose(p) && g.pins[p].dir == In && g.pins[p].net.Some?
    modifies g
    ensures g.Ready() && |g.nets| == |old(g.nets)| + 4 && (old(g.tidy) ==> g.tidy)
    ensures ff == |old(g.cells)| + 3
    ensures GatesDone(old(g.cells), g.cells, n, h, we, clk, old(g.pins[p].net), |old(g.nets)|)
  {
    var up := GateBanks(g, n, h, we, p);
    ghost var cells2 := g.cells;
    ff := RegisterBit(g, up, n, clk);
    assert g.cells[up] == cells2[up] && g.cells[up + 1] == cells2[up + 1] && g.cells[up + 2] == cells2[up + 2];
  }

  /** Both banks, the three gates and the register. */
  method BuildSpGates(g: Netlist, n: nat, addr: nat, at: nat, we: nat, clk: nat) returns (h: nat, ff: nat)
    requires g.Ready() && n < |g.cells| && Splittable(g.cells[n])
    requires SpShifted(g.cells[n], addr, at, we, clk)
    modifies g
    ensures g.Ready() && (old(g.tidy) ==> g.tidy) && |g.nets| == |old(g.nets)| + 4
    ensures h == |old(g.cells)| && ff == h + 4 && SpGates(old(g.Meaning()), g.cells, n)
  {
    ghost var a := g.Meaning();
    var p;
    h, p := TwoBanks(g, n, addr, at, we);
    ghost var cells1 := g.cells;
    BanksReady(a.cells, cells1, n, addr, at, we, clk);
    ff := GateAndRegister(g, n, h, we, clk, p);
    SpGatesChain(a, cells1, g.cells, n, addr, at, we, clk);
  }

  /** The two slots once the address pin is gone. */
  predicate SpShifted(c: Cell, addr: nat, at: nat, we: nat, clk: nat)
    requires Splittable(c)
  {
    && addr == FindPort(c.inPorts, Addr) && at == Offset(c.inPorts, addr)
    && we == Offset(Dropped(c, addr).inPorts, FindPort(c.inPorts, We))
    && clk == Offset(Dropped(c, addr).inPorts, FindPort(c.inPorts, Clk))
  }

  lemma {:induction false} BanksReady(before: seq<Cell>, cells1: seq<Cell>, n: nat, addr: nat, at: nat, we: nat,
                                      clk: nat)
    requires n < |before| && Splittable(before[n]) && SpShifted(before[n], addr, at, we, clk)
    requires TwoBanksDone(before, cells1, n, addr, we)
    ensures HasIn(cells1, n, we) && HasIn(cells1, |before|, we) && HasIn(cells1, n, clk) && we != clk
    ensures cells1[n].ins[we] == WeBit(before[n], 0) && cells1[n].ins[clk] == ClockOf(before[n])
    ensures cells1[n].ins[we].Some? && cells1[|before|].ins[we] == None && cells1[n].ins[clk].Some?
    ensures AddrBit(before[n], 0).Some?
  {
    ShiftedPorts(before[n]);
    PortSlots(before[n], addr);
  }

  lemma {:induction false} SpGatesChain(a: NL, cells1: seq<Cell>, start: seq<Cell>, n: nat, addr: nat, at: nat,
                                        we: nat, clk: nat)
    requires n < |a.cells| && Splittable(a.cells[n]) && SpShifted(a.cells[n], addr, at, we, clk)
    requires TwoBanksDone(a.cells, cells1, n, addr, we)
    requires GatesDone(cells1, start, n, |a.cells|, we, clk, AddrBit(a.cells[n], 0), a.nets)
    ensures SpGates(a, start, n)
  {
    hide RoleSlots, FindPort;
    var c, h := a.cells[n], |a.cells|;
    BanksReady(a.cells, cells1, n, addr, at, we, clk);
    forall k {:trigger start[k]} | 0 <= k < h && k != n ensures start[k] == a.cells[k] {
      assert start[k] == cells1[k] && cells1[k] == a.cells[k];
    }
    SpGatesBuilt(a, start, n);
  }

  /** One level of the single-port split. */
  method BuildSpSplit(g: Netlist, n: nat, addr: nat, at: nat, we: nat, clk: nat) returns (h: nat)
    requires g.Ready() && n < |g.cells| && Splittable(g.cells[n])
    requires SpShifted(g.cells[n], addr, at, we, clk)
    modifies g
    ensures g.Ready() && (old(g.tidy) ==> g.tidy) && h == |old(g.cells)|
    ensures SpBuilt(old(g.Meaning()), g.Meaning(), n)
  {
    ghost var a, reg := g.Meaning(), |g.nets| + 3;
    var w := |g.nodes[n].outPins|;
    g.EmptySlots(n);
    var ff;
    h, ff := BuildSpGates(g, n, addr, at, we, clk);
    ghost var start := g.cells;
    ghost var e := |g.nets|;
    SpGatesOutputs(a, start, n, h, ff, reg, w);
    MuxOutputs(g, n, h, ff, reg, 0, w);
    SpAllBuilt(a, start, g.Meaning(), n, h, reg, e, w);
  }

  lemma {:induction false} SpGatesOutputs(a: NL, start: seq<Cell>, n: nat, h: nat, ff: nat, reg: nat, w: nat)
    requires n < |a.cells| && Splittable(a.cells[n]) && SpGates(a, start, n)
    requires h == |a.cells| && ff == h + 4 && reg == a.nets + 3 && w == |a.cells[n].outs|
    ensures MuxStart(start, n, h, ff, reg, 0, w)
  {
    hide HasSpPorts;
  }

  /** Where the enable and the clock sit once the address pin is gone. */
  lemma {:induction false} ShiftedPorts(c: Cell)
    requires Splittable(c)
    ensures var addr, we, clk := FindPort(c.inPorts, Addr), FindPort(c.inPorts, We), FindPort(c.inPorts, Clk);
      var d, at := Dropped(c, addr), Offset(c.inPorts, addr);
      && Offset(d.inPorts, we)
        == (if Offset(c.inPorts, we) >= at then Offset(c.inPorts, we) - 1 else Offset(c.inPorts, we)) < |d.ins|
      && Offset(d.inPorts, clk)
        == (if Offset(c.inPorts, clk) >= at then Offset(c.inPorts, clk) - 1 else Offset(c.inPorts, clk)) < |d.ins|
      && Offset(d.inPorts, we) != Offset(d.inPorts, clk)
      && AllConnected(d.ins)
      && d.ins[Offset(d.inPorts, we)] == WeBit(c, 0) && d.ins[Offset(d.inPorts, clk)] == ClockOf(c)
      && at < |c.ins| && c.ins[at] == AddrBit(c, 0)
  {
    hide Offset;
    var addr, we, clk := FindPort(c.inPorts, Addr), FindPort(c.inPorts, We), FindPort(c.inPorts, Clk);
    var d := Dropped(c, addr);
    DroppedShape(c, addr);
    assert addr != we && addr != clk && we != clk;
    ShiftedPort(c, addr, we);
    ShiftedPort(c, addr, clk);
    PortSlots(c, addr);
    if we < clk { OffsetOrder(d.inPorts, we, clk); } else { OffsetOrder(d.inPorts, clk, we); }
  }

  lemma {:induction false} ShiftedPort(c: Cell, a: nat, k: nat)
    requires PortShape(c) && a < |c.inPorts| && k < |c.inPorts| && k != a && c.inPorts[a].width >= 2
    ensures var d := Dropped(c, a);
      && PortShape(d)
      && Offset(d.inPorts, k)
        == (if Offset(c.inPorts, k) >= Offset(c.inPorts, a) then Offset(c.inPorts, k) - 1 else Offset(c.inPorts, k))
      && Offset(d.inPorts, k) < |d.ins| && d.ins[Offset(d.inPorts, k)] == First(PortOf(c.inPorts, c.ins, k))
  {
    DroppedShape(c, a);
    OffsetDropped(c.inPorts, a, k);
    if k < a { OffsetOrder(c.inPorts, k, a); } else { OffsetOrder(c.inPorts, a, k); }
    PortSlots(c, k);
    PortSlots(Dropped(c, a), k);
    DroppedPort(c, a, k);
  }

  /** Before the output loop: both banks with their enables, the three gates and the register. */
  ghost predicate SpGates(a: NL, start: seq<Cell>, n: nat)
    requires n < |a.cells| && Splittable(a.cells[n])
  {
    var c, h := a.cells[n], |a.cells|;
    var m := SpPlan(a.nets, |c.outs|);
    && |start| == h + 5 && (forall k {:trigger start[k]} :: 0 <= k < h && k != n ==> start[k] == a.cells[k])
    && start[n] == BankCell(c, m, true).(outs := c.outs) && start[h] == BankCell(c, m, false).(outs := Nones(|c.outs|))
    && start[h + 1] == GateCell(c, m, GateS(0)) && start[h + 2] == GateCell(c, m, Inv(0))
    && start[h + 3] == GateCell(c, m, GateH(0)) && start[h + 4] == GateCell(c, m, Reg(0))
  }

  lemma {:induction false} SpGatesBuilt(a: NL, start: seq<Cell>, n: nat)
    requires n < |a.cells| && Splittable(a.cells[n])
    requires var c, h, e := a.cells[n], |a.cells|, a.nets;
      var addr, we, clk := FindPort(c.inPorts, Addr), FindPort(c.inPorts, We), FindPort(c.inPorts, Clk);
      var d := Dropped(c, addr); var at := Offset(d.inPorts, we);
      && |start| == h + 5 && (forall k {:trigger start[k]} :: 0 <= k < h && k != n ==> start[k] == a.cells[k])
      && at < |d.ins| && |start[h].ins| == |d.ins|
      && start[n] == d.(ins := d.ins[at := Some(e)])
      && start[h] == d.(ins := start[h].ins, outs := Nones(|c.outs|))
      && (forall k :: 0 <= k < |d.ins| ==> start[h].ins[k] == if k == at then Some(e + 2) else d.ins[k])
      && start[h + 1] == And2(AddrBit(c, 0), WeBit(c, 0), e) && start[h + 2] == NotCell(AddrBit(c, 0), e + 1)
      && start[h + 3] == And2(Some(e + 1), WeBit(c, 0), e + 2)
      && start[h + 4] == Cell(FlipFlop, [AddrBit(c, 0), ClockOf(c)], [Some(e + 3)], [Bit1, Bit1], [1])
    ensures SpGates(a, start, n)
  {
    hide FindPort, Offset, PortShape, First, WeBit;
    var c, h, e := a.cells[n], |a.cells|, a.nets;
    var d := Dropped(c, FindPort(c.inPorts, Addr));
    var m := SpPlan(a.nets, |c.outs|);
    DroppedShape(c, FindPort(c.inPorts, Addr));
    assert start[h].ins == d.ins[Offset(d.inPorts, FindPort(c.inPorts, We)) := Some(e + 2)];
    assert start[n] == BankCell(c, m, true).(outs := c.outs);
    assert start[h] == BankCell(c, m, false).(outs := Nones(|c.outs|));
  }

  lemma {:induction false} BankOuts(c: Cell, m: Plan, upper: bool, base: nat)
    requires Splittable(c) && m == SpPlan(base, |c.outs|)
    ensures BankCell(c, m, upper).outs
      == MovedOuts(if upper then c.outs else Nones(|c.outs|), 0, |c.outs|, if upper then base + 5 else base + 6)
  {
    assert m.has(GateTag(upper, 0));
    assert forall i :: 0 <= i < |c.outs| ==>
      m.has(OutTag(upper, i)) && m.at(OutTag(upper, i)) == (if upper then base + 5 else base + 6) + 3 * i;
  }

  lemma {:induction false} SpAllBuilt(a: NL, start: seq<Cell>, b: NL, n: nat, h: nat, reg: nat, e: nat, w: nat)
    requires n < |a.cells| && Splittable(a.cells[n]) && SpGates(a, start, n)
    requires h == |a.cells| && reg == a.nets + 3 && e == a.nets + 4 && w == |a.cells[n].outs|
    requires b.nets == e + 3 * w && b.zero == a.zero && b.one == a.one && b.pad == a.pad
    requires Muxed(start, b.cells, n, h, reg, e, 0, w)
    ensures SpBuilt(a, b, n)
  {
    hide HasSpPorts, GateCell, HasRole;
    var c := a.cells[n];
    var m := SpPlan(a.nets, w);
    BankOuts(c, m, true, a.nets);
    BankOuts(c, m, false, a.nets);
    assert forall k {:trigger b.cells[k]} :: h < k < h + 5 ==> start[k] == b.cells[k];
    forall k {:trigger a.cells[k]} | 0 <= k < h && k != n ensures b.cells[k] == a.cells[k] {
      assert start[k] == a.cells[k];
    }
    forall j | 0 <= j < w ensures OutputBuilt(b.cells, c, m, h, j) {
      SpOutputBuilt(a, start, b.cells, n, j);
    }
  }

  lemma {:induction false} SpOutputBuilt(a: NL, start: seq<Cell>, cells: seq<Cell>, n: nat, j: nat)
    requires n < |a.cells| && Splittable(a.cells[n]) && SpGates(a, start, n) && j < |a.cells[n].outs|
    requires Muxed(start, cells, n, |a.cells|, a.nets + 3, a.nets + 4, 0, |a.cells[n].outs|)
    ensures OutputBuilt(cells, a.cells[n], SpPlan(a.nets, |a.cells[n].outs|), |a.cells|, j)
  {
    hide HasSpPorts, PortShape;
    assert MuxAt(start, cells, n, a.nets + 3, a.nets + 4, 0, j);
    assert start[n].outs == a.cells[n].outs;
  }
}
