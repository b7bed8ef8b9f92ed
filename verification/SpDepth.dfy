/** split_sp_memory_depth: the recursion. */
module SpDepth {
  import opened Wrappers
  import opened Bits
  import opened Semantics
  import opened Runs
  import opened Netlists
  import opened RippleCells
  import opened RippleBuild
  import opened MemoryPorts
  import opened BankSplit
  import opened SpSplit
  import opened MemoryDepth
  import opened MemoryTree
  import BankRealize

  lemma {:induction false} SpBankInRange(c: Cell, m: Plan, upper: bool, nets: nat, nets': nat)
    requires Splittable(c) && InRange(c, nets) && nets <= nets'
    requires m.has(GateTag(upper, 0)) && forall i :: 0 <= i < |c.outs| ==> m.has(OutTag(upper, i))
    requires forall tag :: m.has(tag) ==> m.at(tag) < nets'
    ensures InRange(BankCell(c, m, upper), nets')
  {
    var d := Dropped(c, FindPort(c.inPorts, Addr));
    DroppedShape(c, FindPort(c.inPorts, Addr));
    PortSlots(c, FindPort(c.inPorts, Addr));
    forall i | 0 <= i < |d.ins| && d.ins[i].Some? ensures d.ins[i].value < nets {
      assert d.ins[i] == if i < Offset(c.inPorts, FindPort(c.inPorts, Addr)) then c.ins[i] else c.ins[i + 1];
    }
    BankCellFields(c, m, upper);
  }

  /** One level of the pass is one level of the tree, and both banks can be split again. */
  lemma {:induction false} SpLevel(a: NL, b: NL, n: nat, h: nat)
    requires WellFormed(a) && n < |a.cells| && h == |a.cells| && Splittable(a.cells[n]) && SpBuilt(a, b, n)
    ensures OneLevel(a, b, n)
    ensures SpNode(b.cells[n]) && HasSpPorts(b.cells[n]) && SpNode(b.cells[h]) && HasSpPorts(b.cells[h])
  {
    hide HasSpPorts;
    var c, m := a.cells[n], SpPlan(a.nets, |a.cells[n].outs|);
    SpBuiltSplits(a, b, n);
    BankRealize.SplitEquivalent(a, b, n, m);
    assert InRange(c, a.nets);
    SpBankInRange(c, m, true, a.nets, b.nets);
    SpBankInRange(c, m, false, a.nets, b.nets);
    SplitWellFormed(a, b, n, m);
    SplitIsOneLevel(a, b, n, m);
    BankCellShape(c, m, true);
    BankCellShape(c, m, false);
  }

  /** The loop that counts address pins up to the first one on the pad net. */
  method CountLiveBits(g: Netlist, n: nat, at: nat, width: nat) returns (k: nat)
    requires g.Ready() && n < |g.cells| && AllConnected(g.cells[n].ins) && at + width <= |g.cells[n].ins|
    ensures k == Live(g.cells[n].ins[at..at + width], g.padNet)
  {
    ghost var s := g.cells[n].ins[at..at + width];
    g.EmptySlots(n);
    assert NodeOk(g.nodes[n], g.pins, n, g.cells[n]);
    k := 0;
    while k < width && g.pins[g.nodes[n].inPins[at + k].value].net != Some(g.padNet)
      invariant k <= width && Live(s, g.padNet) == k + Live(s[k..], g.padNet)
    {
      assert g.cells[n].ins[at + k].Some?;
      assert s[k] == g.cells[n].ins[at + k] && s[k..][1..] == s[k + 1..];
      k := k + 1;
    }
  }

  /** The four ports the pass looks for. */
  method FindSpPorts(ports: seq<Port>) returns (found: bool, addr: nat, at: nat, weAt: nat, clkAt: nat)
    requires DistinctRoles(ports)
    ensures found <==>
      FindPort(ports, Data) < |ports| && FindPort(ports, Addr) < |ports| && FindPort(ports, We) < |ports|
        && FindPort(ports, Clk) < |ports|
    ensures found ==> addr == FindPort(ports, Addr) && at == Offset(ports, addr)
    ensures found ==> weAt == Offset(ports, FindPort(ports, We)) && clkAt == Offset(ports, FindPort(ports, Clk))
  {
    var data, dataAt := LookUpPort(ports, Data);
    addr, at := LookUpPort(ports, Addr);
    var we, clk;
    we, weAt := LookUpPort(ports, We);
    clk, clkAt := LookUpPort(ports, Clk);
    found := data < |ports| && addr < |ports| && we < |ports| && clk < |ports|;
  }

  lemma {:induction false} ConcatAssociative(a: seq<nat>, b: seq<nat>, c: seq<nat>)
    ensures a + (b + c) == (a + b) + c
  {
  }

  lemma {:induction false} SpLive(c: Cell, addr: nat, at: nat, pad: nat)
    requires SpRam(c) && addr == FindPort(c.inPorts, Addr) && at == Offset(c.inPorts, addr)
    ensures at + c.inPorts[addr].width <= |c.ins| && AllConnected(c.ins)
    ensures Live(c.ins[at..at + c.inPorts[addr].width], pad) == LiveBits(c, pad) <= c.inPorts[addr].width
  {
    PortSlots(c, addr);
  }

  method SplitSpLevel(g: Netlist, n: nat, addr: nat, at: nat, weAt: nat, clkAt: nat) returns (h: nat)
    requires g.Ready() && WellFormed(g.Meaning()) && n < |g.cells| && Splittable(g.cells[n])
    requires SpLocated(g.cells[n], addr, at, weAt, clkAt)
    modifies g
    ensures g.Ready() && (old(g.tidy) ==> g.tidy)
    ensures OneLevel(old(g.Meaning()), g.Meaning(), n) && h == |old(g.cells)| && SpRam(g.cells[n]) && SpRam(g.cells[h])
  {
    ghost var a := g.Meaning();
    ShiftedPorts(g.cells[n]);
    h := BuildSpSplit(g, n, addr, at, if weAt >= at then weAt - 1 else weAt, if clkAt >= at then clkAt - 1 else clkAt);
    SpLevel(a, g.Meaning(), n, h);
  }

  predicate SpRam(c: Cell) {
    SpNode(c) && HasSpPorts(c)
  }

  predicate SpLocated(c: Cell, addr: nat, at: nat, weAt: nat, clkAt: nat) {
    && addr == FindPort(c.inPorts, Addr) && at == Offset(c.inPorts, addr)
    && weAt == Offset(c.inPorts, FindPort(c.inPorts, We)) && clkAt == Offset(c.inPorts, FindPort(c.inPorts, Clk))
  }

  /** Ports and live address bits. */
  method MeasureSp(g: Netlist, n: nat) returns (found: bool, addr: nat, at: nat, weAt: nat, clkAt: nat, live: nat)
    requires g.Ready() && n < |g.cells| && SpNode(g.cells[n])
    ensures found <==> HasSpPorts(g.cells[n])
    ensures found ==> SpLocated(g.cells[n], addr, at, weAt, clkAt) && live == LiveBits(g.cells[n], g.padNet)
    ensures found && live >= 2 ==> Splittable(g.cells[n])
  {
    hide DistinctRoles, Offset, FindPort, Netlist.Tidy, Live;
    assert NodeOk(g.nodes[n], g.pins, n, g.cells[n]);
    found, addr, at, weAt, clkAt := FindSpPorts(g.nodes[n].inPorts);
    live := 0;
    if found {
      SpLive(g.cells[n], addr, at, g.padNet);
      live := CountLiveBits(g, n, at, g.nodes[n].inPorts[addr].width);
    }
  }

  /** Everything before the recursive calls. `split` is set when the memory was cut, its new bank being `h`. */
  method SplitSpOnce(g: Netlist, n: nat, size: int) returns (ok: bool, split: bool, h: nat)
    requires g.Ready() && WellFormed(g.Meaning()) && n < |g.cells| && SpNode(g.cells[n])
    modifies g
    ensures g.Ready() && WellFormed(g.Meaning()) && (old(g.tidy) ==> g.tidy)
    ensures ok <==> size > 0 && HasSpPorts(old(g.cells[n]))
    ensures split <==> ok && LiveBits(old(g.cells[n]), g.padNet) > size
    ensures !split ==> g.Meaning() == old(g.Meaning())
    ensures split ==>
      OneLevel(old(g.Meaning()), g.Meaning(), n) && h == |old(g.cells)| && SpRam(g.cells[n]) && SpRam(g.cells[h])
  {
    var found, addr, at, weAt, clkAt, live := MeasureSp(g, n);
    ok := found && size > 0;
    split := ok && live > size;
    h := 0;
    if split {
      h := SplitSpLevel(g, n, addr, at, weAt, clkAt);
    }
  }

  /** Recursive splitting: every behaviour is kept, and the leaves are pushed onto the work list. */
  method SplitSpMemoryDepth(g: Netlist, n: nat, size: int, list: seq<nat>) returns (ok: bool, list': seq<nat>,
                            ghost leaves: seq<nat>)
    requires g.Ready() && WellFormed(g.Meaning()) && n < |g.cells| && SpNode(g.cells[n])
    modifies g
    ensures g.Ready() && WellFormed(g.Meaning()) && (old(g.tidy) ==> g.tidy)
    ensures ok <==> size > 0 && HasSpPorts(old(g.cells[n]))
    ensures ok ==> list' == leaves + list && Tree(old(g.Meaning()), g.Meaning(), n, size, leaves)
    ensures !ok ==> list' == list && g.Meaning() == old(g.Meaning())
    decreases LiveBits(g.cells[n], g.padNet)
  {
    ghost var a := g.Meaning();
    var split, h;
    list', leaves := list, [];
    ok, split, h := SplitSpOnce(g, n, size);
    if !ok { return; }
    if !split {
      TreeLeaf(a, n, size);
      list', leaves := [n] + list, [n];
      return;
    }
    ghost var b := g.Meaning();
    BankExcess(a.cells[n], b.cells[n], size, a.pad);
    BankExcess(a.cells[n], b.cells[h], size, a.pad);
    var done;
    ghost var l1, l2;
    done, list', l1 := SplitSpMemoryDepth(g, n, size, list);
    ghost var s := g.Meaning();
    assert s.cells[h] == b.cells[h];
    done, list', l2 := SplitSpMemoryDepth(g, h, size, list');
    TreeJoin(a, b, s, g.Meaning(), n, h, size, l1, l2);
    leaves := l2 + l1;
    ConcatAssociative(l2, l1, list);
  }
}
