/** split_dp_memory_depth: the construction and the recursion. */
module DpBuild {
  import opened Wrappers
  import opened Bits
  import opened Semantics
  import opened Runs
  import opened Netlists
  import opened RippleCells
  import opened RippleBuild
  import opened MemoryPorts
  import opened BankSplit
  import opened SpSplit
  import opened DpSplit
  import opened MemoryDepth
  import opened MemoryTree
  import opened DpDepth
  import opened DpCells
  import SpDepth
  import BankRealize

  /** All four gatings. */
  method GateDpBanks(g: Netlist, n: nat, h: nat, s: Slots, p1: nat, p2: nat, ghost b1: Option<nat>,
                     ghost b2: Option<nat>,
                     ghost x1: Option<nat>, ghost x2: Option<nat>, ghost e: nat) returns (ghost up: seq<Cell>)
    requires g.Ready() && SlotsIn(g.cells, n, h, s) && h < |g.cells| && Free(g, p1, b1) && e == |g.nets|
    requires s.has2 ==> Free(g, p2, b2) && p2 != p1
    requires s.w2 ==> s.has2
    requires (s.w1 ==> x1 == g.cells[n].ins[s.we1]) && (s.w2 ==> x2 == g.cells[n].ins[s.we2])
    modifies g
    ensures g.Ready() && |g.nets| == e + 3 * One(s.w1) + 3 * One(s.w2)
    ensures Gating(old(g.cells), up, g.cells, n, h, s, b1, b2, x1, x2, e)
    ensures Free(g, p1, b1) && (s.has2 ==> Free(g, p2, b2))
  {
    ghost var cells1 := g.cells;
    var q1, q2 := UpperEnables(g, n, h, s, p1, p2, b1, b2);
    up := g.cells;
    UppersAre(cells1, n, h, s, b1, b2, e, up);
    assert up[h] == cells1[h];
    LowerEnables(g, h, s, p1, p2, q1, q2, b1, b2, x1, x2);
  }

  /** Both banks with their gated enables; the address pins are still to be placed. */
  method BuildDpEnables(g: Netlist, n: nat, a1: nat, at1: nat, a2: nat, at2: nat, s0: Slots, ghost a: NL)
    returns (h: nat, p1: nat, p2: nat, s: Slots)
    requires n < |a.cells| && DpSplittable(a.cells[n])
    requires DpLocated(a.cells[n], a1, at1, a2, at2, s0) && a == g.Meaning() && g.Ready()
    modifies g
    ensures g.Ready() && h == |a.cells| && |g.nets| == a.nets + Gates(a.cells[n]) && EnablesBuilt(a, g.cells, n)
    ensures SlotsOf(Cut(a.cells[n]), s)
    ensures Free(g, p1, AddrBit(a.cells[n], 0)) && (s.has2 ==> Free(g, p2, AddrBit(a.cells[n], 1)) && p1 != p2)
  {
    hide HasRole, Offset, SlotAt, Netlist.Ready, PortShape, GateAt, Width, Netlist.Valid, EnablesBuilt;
    ghost var c := g.cells[n];
    ghost var d, e := Cut(c), |g.nets|;
    ghost var b1, b2, x1, x2 := AddrBit(c, 0), AddrBit(c, 1), WeBit(c, 0), WeBit(c, 1);
    p1, p2, s := CutLow(g, n, a1, at1, a2, at2, s0, c);
    CutSlots(c, s);
    assert g.cells[n] == d;
    h := SecondBank(g, n);
    ghost var cells1 := g.cells;
    BankSlotsIn(a, cells1, n, h, d, s);
    ghost var up := GateDpBanks(g, n, h, s, p1, p2, b1, b2, x1, x2, e);
    EnablesAre(a, cells1, n, h, d, s, b1, b2, x1, x2, e, up, g.cells);
  }

  lemma {:induction false} BankSlotsIn(a: NL, cells1: seq<Cell>, n: nat, h: nat, d: Cell, s: Slots)
    requires n < |a.cells| && DpSplittable(a.cells[n]) && d == Cut(a.cells[n]) && h == |a.cells|
    requires cells1 == a.cells[n := d] + [d.(outs := Nones(|a.cells[n].outs|))] && SlotsOf(d, s)
    ensures SlotsIn(cells1, n, h, s)
    ensures s.w1 ==> WeBit(a.cells[n], 0) == cells1[n].ins[s.we1]
    ensures s.w2 ==> WeBit(a.cells[n], 1) == cells1[n].ins[s.we2]
  {
    CutSlots(a.cells[n], s);
    assert cells1[n] == d && cells1[h].ins == d.ins;
  }

  lemma {:induction false} StageMuxStart(c: Cell, up: Cell, low: Cell, base: nat, orig: seq<Cell>, before: seq<Cell>,
                                         start: seq<Cell>,
                                         n: nat, h: nat, k: nat, lo: nat, d: nat, reg: nat, ff: nat)
    requires OutShape(c) && StageStart(c, k, lo) && d == D(c) && h == |orig| && reg == DpNet(c, base, Reg(k))
    requires Progress(c, up, low, base, orig, before, n, lo) && ff == |before|
    requires start == before + [Cell(FlipFlop, [AddrBit(c, k), ClockOf(c)], [Some(reg)], [Bit1, Bit1], [1])]
    ensures MuxStart(start, n, h, ff, reg, lo, d)
  {
    assert start[n] == before[n] && start[h] == before[h];
    assert forall i {:trigger start[n].outs[i]} :: lo <= i < lo + d ==> start[n].outs[i] == c.outs[i];
  }

  /** One register and the muxes of its outputs. */
  method DpStage(g: Netlist, n: nat, h: nat, clk: nat, p: nat, lo: nat, d: nat, ghost c: Cell, ghost up: Cell,
                 ghost low: Cell, ghost base: nat,
                 ghost orig: seq<Cell>, ghost k: nat, ghost reg: nat)
    requires g.Ready() && OutShape(c) && StageStart(c, k, lo) && d == D(c) && h == |orig|
    requires reg == DpNet(c, base, Reg(k)) == |g.nets|
    requires Progress(c, up, low, base, orig, g.cells, n, lo)
    requires HasIn(g.cells, n, clk) && g.cells[n].ins[clk] == ClockOf(c) && ClockOf(c).Some?
    requires Free(g, p, AddrBit(c, k))
    modifies g
    ensures g.Ready() && |g.nets| == |old(g.nets)| + 1 + 3 * d && FreeBut(old(g.pins), g.pins, p)
    ensures Progress(c, up, low, base, orig, g.cells, n, lo + d)
  {
    hide Netlist.Valid;
    ghost var before, pins0, e := g.cells, g.pins, reg + 1;
    var ff := RegisterPin(g, n, clk, p, AddrBit(c, k));
    ghost var start, pins1 := g.cells, g.pins;
    StageMuxStart(c, up, low, base, orig, before, start, n, h, k, lo, d, reg, ff);
    MuxOutputs(g, n, h, ff, reg, lo, d);
    FreeThen(pins0, pins1, g.pins, p);
    StageDone(c, up, low, base, orig, before, start, g.cells, n, k, lo, reg, e);
  }

  /** Both stages, the second one only when there is a second output port. */
  method DpStages(g: Netlist, n: nat, h: nat, clk: nat, p1: nat, p2: nat, d: nat, two: bool, ghost c: Cell,
                  ghost up: Cell, ghost low: Cell,
                  ghost base: nat, ghost orig: seq<Cell>)
    requires g.Ready() && OutShape(c) && d == D(c) && h == |orig| && |g.nets| == base + Gates(c)
    requires two == (|c.outs| > d)
    requires Progress(c, up, low, base, orig, g.cells, n, 0) && up.outs == c.outs
    requires clk < |up.ins| && up.ins[clk] == ClockOf(c) && ClockOf(c).Some?
    requires Free(g, p1, AddrBit(c, 0)) && (two ==> Free(g, p2, AddrBit(c, 1)) && p1 != p2)
    modifies g
    ensures g.Ready() && |g.nets| == base + Gates(c) + 1 + 3 * |c.outs| + One(two)
    ensures Progress(c, up, low, base, orig, g.cells, n, |c.outs|)
  {
    hide RoleSlots, Netlist.Ready;
    DpStage(g, n, h, clk, p1, 0, d, c, up, low, base, orig, 0, |g.nets|);
    if two {
      DpStage(g, n, h, clk, p2, d, d, c, up, low, base, orig, 1, |g.nets|);
    }
  }

  ghost predicate DpLocated(c: Cell, a1: nat, at1: nat, a2: nat, at2: nat, s: Slots) {
    && SlotsOf(c, s) && a1 == FindPort(c.inPorts, Addr1) && at1 == Offset(c.inPorts, a1)
    && (s.has2 ==> a2 == FindPort(c.inPorts, Addr2) && at2 == Offset(c.inPorts, a2))
  }

  /** What the second half needs to know of the shortened memory. */
  lemma {:induction false} DpReady(c: Cell, s: Slots, base: nat, up: Cell)
    requires DpSplittable(c) && SlotsOf(Cut(c), s) && up == Enabled2(c, Cut(c), base, true)
    ensures up.outs == c.outs && s.clk < |up.ins| && up.ins[s.clk] == ClockOf(c) && ClockOf(c).Some?
    ensures OutShape(c) && (|c.outs| > D(c) ==> s.has2)
  {
    hide RoleSlots, Enabled2, SamePorts, HasRole, First;
    CutSlots(c, s);
    EnabledIs(c, Cut(c), s, base, true);
  }

  /** One level of the dual-port split. */
  method BuildDpSplit(g: Netlist, n: nat, a1: nat, at1: nat, a2: nat, at2: nat, s0: Slots) returns (h: nat)
    requires g.Ready() && n < |g.cells| && DpSplittable(g.cells[n]) && DpLocated(g.cells[n], a1, at1, a2, at2, s0)
    modifies g
    ensures g.Ready() && h == |old(g.cells)| && DpBuilt(old(g.Meaning()), g.Meaning(), n)
  {
    ghost var a := g.Meaning();
    ghost var c := g.cells[n];
    assert NodeOk(g.nodes[n], g.pins, n, c);
    var d, two := g.nodes[n].outPorts[0], |g.nodes[n].outPins| > g.nodes[n].outPorts[0];
    var p1, p2, s;
    h, p1, p2, s := BuildDpEnables(g, n, a1, at1, a2, at2, s0, a);
    ghost var up, low := Enabled2(c, Cut(c), a.nets, true), Enabled2(c, Cut(c), a.nets, false);
    DpReady(c, s, a.nets, up);
    NoOutputsYet(a, g.cells, n, up, low);
    DpStages(g, n, h, s.clk, p1, p2, d, two, c, up, low, a.nets, a.cells);
    AllOutputsBuilt(a, g.Meaning(), n, up, low);
  }

  predicate DpRam(c: Cell) {
    DpNode(c) && HasRole(c, Addr1)
  }

  /** One level of the pass is one level of the tree, and both banks can be split again. */
  lemma {:induction false} DpLevel(a: NL, b: NL, n: nat, h: nat)
    requires WellFormed(a) && n < |a.cells| && h == |a.cells| && DpSplittable(a.cells[n]) && DpBuilt(a, b, n)
    ensures OneLevel(a, b, n) && DpRam(b.cells[n]) && DpRam(b.cells[h])
  {
    var c, m := a.cells[n], DpPlan(a.cells[n], a.nets);
    DpBuiltSplits(a, b, n);
    BankRealize.SplitEquivalent(a, b, n, m);
    assert InRange(c, a.nets);
    DpBankInRange(c, a.nets, true, b.nets);
    DpBankInRange(c, a.nets, false, b.nets);
    DpPlanOk(c, a.nets);
    SplitWellFormed(a, b, n, m);
    SplitIsOneLevel(a, b, n, m);
    DpBankShape(c, a.nets, true);
    DpBankShape(c, a.nets, false);
  }

  lemma {:induction false} DpLive(c: Cell, a1: nat, at1: nat, pad: nat)
    requires DpRam(c) && a1 == FindPort(c.inPorts, Addr1) && at1 == Offset(c.inPorts, a1)
    ensures at1 + c.inPorts[a1].width <= |c.ins| && AllConnected(c.ins)
    ensures Live(c.ins[at1..at1 + c.inPorts[a1].width], pad) == LiveBits(c, pad) <= Width(c, Addr1)
  {
    PortSlots(c, a1);
  }

  /** Ports and live address bits, counted on the first address port. */
  method MeasureDp(g: Netlist, n: nat) returns (found: bool, a1: nat, at1: nat, a2: nat, at2: nat, s: Slots, live: nat)
    requires g.Ready() && n < |g.cells| && DpNode(g.cells[n])
    ensures found <==> HasRole(g.cells[n], Addr1)
    ensures found ==> DpLocated(g.cells[n], a1, at1, a2, at2, s) && live == LiveBits(g.cells[n], g.padNet)
    ensures found && live >= 2 ==> DpSplittable(g.cells[n])
  {
    hide DpNode;
    assert NodeOk(g.nodes[n], g.pins, n, g.cells[n]);
    found, a1, at1, a2, at2, s := FindDpPorts(g.nodes[n].inPorts, g.cells[n]);
    live := 0;
    if found {
      DpLive(g.cells[n], a1, at1, g.padNet);
      live := SpDepth.CountLiveBits(g, n, at1, g.nodes[n].inPorts[a1].width);
    }
  }

  /** Everything before the recursive calls. `split` is set when the memory was cut, its new bank being `h`. */
  method SplitDpOnce(g: Netlist, n: nat, size: nat) returns (ok: bool, split: bool, h: nat)
    requires g.Ready() && WellFormed(g.Meaning()) && n < |g.cells| && DpNode(g.cells[n]) && size >= 1
    modifies g
    ensures g.Ready() && WellFormed(g.Meaning())
    ensures ok <==> HasRole(old(g.cells[n]), Addr1)
    ensures split <==> ok && LiveBits(old(g.cells[n]), g.padNet) > size
    ensures !split ==> g.Meaning() == old(g.Meaning())
    ensures split ==>
      OneLevel(old(g.Meaning()), g.Meaning(), n) && h == |old(g.cells)| && DpRam(g.cells[n]) && DpRam(g.cells[h])
  {
    ghost var a := g.Meaning();
    var a1, at1, a2, at2, s, live;
    ok, a1, at1, a2, at2, s, live := MeasureDp(g, n);
    split, h := ok && live > size, 0;
    if split {
      h := BuildDpSplit(g, n, a1, at1, a2, at2, s);
      DpLevel(a, g.Meaning(), n, h);
    }
  }

  /** Recursive splitting: every behaviour is kept, and the leaves are pushed onto the work list. */
  method SplitDpMemoryDepth(g: Netlist, n: nat, size: nat, list: seq<nat>) returns (ok: bool, list': seq<nat>,
                            ghost leaves: seq<nat>)
    requires g.Ready() && WellFormed(g.Meaning()) && n < |g.cells| && DpNode(g.cells[n]) && size >= 1
    modifies g
    ensures g.Ready() && WellFormed(g.Meaning())
    ensures ok <==> HasRole(old(g.cells[n]), Addr1)
    ensures ok ==> list' == leaves + list && Tree(old(g.Meaning()), g.Meaning(), n, size, leaves)
    ensures !ok ==> list' == list && g.Meaning() == old(g.Meaning())
    decreases LiveBits(g.cells[n], g.padNet)
  {
    ghost var a := g.Meaning();
    var split, h;
    list', leaves := list, [];
    ok, split, h := SplitDpOnce(g, n, size);
    if !ok { return; }
    if !split {
      TreeLeaf(a, n, size);
      list', leaves := [n] + list, [n];
      return;
    }
    ghost var b := g.Meaning();
    BankExcess(a.cells[n], b.cells[n], size, a.pad);
    BankExcess(a.cells[n], b.cells[h], size, a.pad);
    var done;
    ghost var l1, l2;
    done, list', l1 := SplitDpMemoryDepth(g, n, size, list);
    ghost var s := g.Meaning();
    assert s.cells[h] == b.cells[h];
    done, list', l2 := SplitDpMemoryDepth(g, h, size, list');
    TreeJoin(a, b, s, g.Meaning(), n, h, size, l1, l2);
    leaves := l2 + l1;
    SpDepth.ConcatAssociative(l2, l1, list);
  }
}
