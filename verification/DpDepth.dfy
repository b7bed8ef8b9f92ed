/** split_dp_memory_depth. */
module DpDepth {
  import opened Wrappers
  import opened Bits
  import opened Semantics
  import opened Runs
  import opened Netlists
  import opened RippleCells
  import opened RippleBuild
  import opened MemoryPorts
  import opened BankSplit
  import opened SpSplit
  import opened DpSplit
  import opened MemoryDepth
  import opened MemoryTree
  import BankRealize

  // ----- steps -----

  function AfterUpper(cells: seq<Cell>, n: nat, we: nat, bit: Option<nat>, e: nat): seq<Cell>
    requires HasIn(cells, n, we)
  {
    SetIn(cells, n, we, Some(e)) + [And2(bit, cells[n].ins[we], e)]
  }

  function AfterLower(cells: seq<Cell>, h: nat, we: nat, bit: Option<nat>, enable: Option<nat>, e: nat): seq<Cell>
    requires HasIn(cells, h, we)
  {
    SetIn(cells, h, we, Some(e + 1)) + [NotCell(bit, e), And2(Some(e), enable, e + 1)]
  }

  /** An AND gate with new pins on the two nets. */
  method CopiedAnd(g: Netlist, e0: nat, e1: nat) returns (a: nat)
    requires g.Ready() && e0 < |g.nets| && e1 < |g.nets|
    modifies g
    ensures g.Ready() && |g.nets| == |old(g.nets)| && (old(g.tidy) ==> g.tidy) && g.KeepsFree(old(g.pins))
    ensures a == |old(g.cells)|
    ensures g.cells == old(g.cells) + [Cell(LogicalAnd, [Some(e0), Some(e1)], [None], [Bit1, Bit1], [1])]
  {
    assert Nones(1) == [None] && Nones(2) == [None, None];
    a := g.AllocateNode(LogicalAnd, [Bit1, Bit1], 2, [1], 1);
    g.AttachNet(e1, a, 1);
    g.AttachNet(e0, a, 0);
    assert g.cells[a].ins == [Some(e0), Some(e1)];
  }

  /** The enable of `n` is gated by copies of the pins; its own pin `q` is put aside. */
  method UpperEnable(g: Netlist, n: nat, we: nat, p: nat, ghost bit: Option<nat>) returns (q: nat)
    requires g.Ready() && HasIn(g.cells, n, we) && g.cells[n].ins[we].Some? && Free(g, p, bit)
    modifies g
    ensures g.Ready() && |g.nets| == |old(g.nets)| + 1 && (old(g.tidy) ==> g.tidy)
    ensures g.cells == AfterUpper(old(g.cells), n, we, bit, |old(g.nets)|)
    ensures g.KeepsFree(old(g.pins)) && Free(g, q, old(g.cells[n].ins[we]))
    ensures q < |old(g.pins)| && old(g.pins[q].node).Some?
  {
    hide Netlist.Tidy, Fenced;
    assert Nones(1) == [None] && Nones(2) == [None, None];
    ghost var cells0 := g.cells;
    assert PinOk(g.pins[p], p, g.nets);
    q := g.VacateInput(n, we);
    assert PinOk(g.pins[q], q, g.nets);
    var a := CopiedAnd(g, g.pins[p].net.value, g.pins[q].net.value);
    var x := g.ConnectNodes(a, 0, n, we);
    UpperCells(cells0, g.cells, n, we, bit, x);
  }

  lemma {:induction false} UpperCells(before: seq<Cell>, after: seq<Cell>, n: nat, we: nat, bit: Option<nat>, e: nat)
    requires HasIn(before, n, we) && |after| == |before| + 1
    requires forall k {:trigger after[k]} :: 0 <= k < |before| && k != n ==> after[k] == before[k]
    requires after[n] == before[n].(ins := after[n].ins) && after[n].ins == before[n].ins[we := Some(e)]
    requires after[|before|] == And2(bit, before[n].ins[we], e)
    ensures after == AfterUpper(before, n, we, bit, e)
  {
  }

  /** The enable of bank `h` is gated by the complement of the bit; the put-aside pin `q` moves to that gate. */
  method LowerEnable(g: Netlist, h: nat, we: nat, p: nat, q: nat, ghost bit: Option<nat>, ghost enable: Option<nat>)
    requires g.Ready() && HasIn(g.cells, h, we) && Free(g, p, bit) && Free(g, q, enable)
    modifies g
    ensures g.Ready() && |g.nets| == |old(g.nets)| + 2
    ensures g.cells == AfterLower(old(g.cells), h, we, bit, enable, |old(g.nets)|)
    ensures FreeBut(old(g.pins), g.pins, q)
  {
    hide NetOk;
    ghost var cells0 := g.cells;
    assert PinOk(g.pins[p], p, g.nets);
    var i := CopiedNot(g, g.pins[p].net.value);
    ghost var e := |g.nets|;
    assert Nones(1) == [None] && Nones(2) == [None, None];
    var a := g.AllocateNode(LogicalAnd, [Bit1, Bit1], 2, [1], 1);
    var x := g.ConnectNodes(i, 0, a, 0);
    MovePin(g, a, q, h, we, e);
    LowerCells(cells0, g.cells, h, we, bit, enable, e);
  }

  /** The pin goes to the second input of gate `a`, whose output becomes the enable. */
  method MovePin(g: Netlist, a: nat, q: nat, h: nat, we: nat, ghost e: nat)
    requires g.Ready() && a != h && HasIn(g.cells, h, we) && a < |g.cells|
    requires g.cells[a] == Cell(LogicalAnd, [Some(e), None], [None], [Bit1, Bit1], [1])
    requires g.Loose(q) && g.pins[q].dir == In && g.pins[q].net.Some?
    modifies g
    ensures g.Ready() && |g.nets| == |old(g.nets)| + 1 && FreeBut(old(g.pins), g.pins, q)
    ensures |g.cells| == |old(g.cells)| && SameBut2(old(g.cells), g.cells, a, h)
    ensures g.cells[a] == And2(Some(e), old(g.pins[q].net), |old(g.nets)|)
    ensures g.cells[h] == old(g.cells[h]).(ins := old(g.cells[h].ins)[we := Some(|old(g.nets)|)])
  {
    g.EmptySlots(a);
    ghost var pins0 := g.pins;
    g.AddInputPinToNode(a, q, 1);
    ghost var pins1 := g.pins;
    assert g.cells[a].ins == [Some(e), old(g.pins[q].net)];
    var x := g.ConnectNodes(a, 0, h, we);
    assert g.cells[a].outs == [Some(x)];
    FreeThen(pins0, pins1, g.pins, q);
  }

  method CopiedNot(g: Netlist, e: nat) returns (i: nat)
    requires g.Ready() && e < |g.nets|
    modifies g
    ensures g.Ready() && |g.nets| == |old(g.nets)| && (old(g.tidy) ==> g.tidy) && g.KeepsFree(old(g.pins))
    ensures i == |old(g.cells)| && g.cells == old(g.cells) + [Cell(LogicalNot, [Some(e)], [None], [], [])]
  {
    assert Nones(1) == [None];
    i := g.AllocateNode(LogicalNot, [], 1, [], 1);
    g.AttachNet(e, i, 0);
    assert g.cells[i].ins == [Some(e)];
  }

  /** Pins that sit nowhere are untouched, all but `q`. */
  ghost predicate FreeBut(before: seq<Pin>, after: seq<Pin>, q: nat) {
    && |before| <= |after|
    && forall p {:trigger before[p]} :: 0 <= p < |before| && p != q && before[p].node == None ==> after[p] == before[p]
  }

  lemma {:induction false} FreeThen(before: seq<Pin>, mid: seq<Pin>, after: seq<Pin>, q: nat)
    requires FreeBut(before, mid, q) && |mid| <= |after|
    requires forall p {:trigger mid[p]} :: 0 <= p < |mid| && mid[p].node == None ==> after[p] == mid[p]
    ensures FreeBut(before, after, q)
  {
    forall p {:trigger before[p]} | 0 <= p < |before| && p != q && before[p].node == None
      ensures after[p] == before[p] {
      assert mid[p] == before[p];
    }
  }

  lemma {:induction false} LowerCells(before: seq<Cell>, after: seq<Cell>, h: nat, we: nat, bit: Option<nat>,
                                      enable: Option<nat>, e: nat)
    requires HasIn(before, h, we) && |after| == |before| + 2
    requires forall k {:trigger after[k]} :: 0 <= k < |before| && k != h ==> after[k] == before[k]
    requires after[h] == before[h].(ins := after[h].ins) && after[h].ins == before[h].ins[we := Some(e + 1)]
    requires after[|before|] == NotCell(bit, e) && after[|before| + 1] == And2(Some(e), enable, e + 1)
    ensures after == AfterLower(before, h, we, bit, enable, e)
  {
  }

  /** A register of the put-aside address pin, clocked like the memory. */
  method RegisterPin(g: Netlist, n: nat, clk: nat, p: nat, ghost bit: Option<nat>) returns (ff: nat)
    requires g.Ready() && HasIn(g.cells, n, clk) && g.cells[n].ins[clk].Some? && Free(g, p, bit)
    modifies g
    ensures g.Ready() && |g.nets| == |old(g.nets)| + 1 && FreeBut(old(g.pins), g.pins, p)
    ensures ff == |old(g.cells)|
    ensures g.cells == old(g.cells)
      + [Cell(FlipFlop, [bit, old(g.cells[n].ins[clk])], [Some(|old(g.nets)|)], [Bit1, Bit1], [1])]
  {
    ff := SeatRegister(g, p, bit);
    ghost var pins1 := g.pins;
    g.CopyInput(n, clk, ff, 1);
    assert g.cells[ff].ins == [bit, old(g.cells[n].ins[clk])];
    ghost var pins2 := g.pins;
    var x := g.DriveNewNet(ff, 0);
    assert g.cells[ff].outs == [Some(x)];
    FreeThen(old(g.pins), pins1, pins2, p);
    FreeThen(old(g.pins), pins2, g.pins, p);
  }

  method SeatRegister(g: Netlist, p: nat, ghost bit: Option<nat>) returns (ff: nat)
    requires g.Ready() && Free(g, p, bit)
    modifies g
    ensures g.Ready() && |g.nets| == |old(g.nets)| && FreeBut(old(g.pins), g.pins, p)
    ensures ff == |old(g.cells)| && g.cells == old(g.cells) + [Cell(FlipFlop, [bit, None], [None], [Bit1, Bit1], [1])]
  {
    assert Nones(1) == [None] && Nones(2) == [None, None];
    ff := g.AllocateNode(FlipFlop, [Bit1, Bit1], 2, [1], 1);
    ghost var pins1 := g.pins;
    g.EmptySlots(ff);
    g.AddInputPinToNode(ff, p, 0);
    assert g.cells[ff].ins == [bit, None];
    assert FreeBut(pins1, g.pins, p);
  }

  /** Node `h` with copies of all pins of `n`. */
  method SecondBank(g: Netlist, n: nat) returns (h: nat)
    requires g.Ready() && n < |g.cells| && g.cells[n].kind.DpMemory? && AllConnected(g.cells[n].ins)
    modifies g
    ensures g.Ready() && |g.nets| == |old(g.nets)| && (old(g.tidy) ==> g.tidy) && g.KeepsFree(old(g.pins))
    ensures h == |old(g.cells)| && g.cells == old(g.cells) + [old(g.cells[n]).(outs := Nones(|old(g.cells[n].outs)|))]
  {
    ghost var before := g.cells;
    g.EmptySlots(n);
    assert NodeOk(g.nodes[n], g.pins, n, g.cells[n]);
    h := g.AllocateNode(DpMemory, g.nodes[n].inPorts, |g.nodes[n].inPins|, g.nodes[n].outPorts, |g.nodes[n].outPins|);
    ghost var d := g.cells[n];
    var w := |g.nodes[n].inPins|;
    assert NodeOk(g.nodes[n], g.pins, n, g.cells[n]);
    CopyInputsBut(g, n, h, w);
    assert g.cells[h].ins == d.ins;
  }

  // ----- taking out the address pins -----

  /** Which ports there are, and the pin slots of the enables and the clock. */
  datatype Slots = Slots(has2: bool, w1: bool, w2: bool, we1: nat, we2: nat, clk: nat)

  ghost predicate SlotAt(c: Cell, role: Role, has: bool, at: nat) {
    has == HasRole(c, role) && (has ==> at == Offset(c.inPorts, FindPort(c.inPorts, role)))
  }

  ghost predicate SlotsOf(c: Cell, s: Slots) {
    && s.has2 == HasRole(c, Addr2) && SlotAt(c, We1, s.w1, s.we1) && SlotAt(c, We2, s.w2, s.we2)
      && SlotAt(c, Clk, true, s.clk)
  }

  function ShiftAt(at: nat, gone: nat): nat {
    if at >= gone && at > 0 then at - 1 else at
  }

  lemma {:induction false} ShiftedSlot(c: Cell, role: Role, at: nat, other: Role, has: bool, at': nat)
    requires PortShape(c) && HasRole(c, role) && Width(c, role) >= 2 && other != role
    requires SlotAt(c, role, true, at) && SlotAt(c, other, has, at')
    ensures SlotAt(DropIf(c, role), other, has, ShiftAt(at', at))
  {
    var a, k := FindPort(c.inPorts, role), FindPort(c.inPorts, other);
    DropIfShape(c, role);
    SamePortsRole(c, DropIf(c, role), other);
    if has {
      OffsetDropped(c.inPorts, a, k);
      if k < a { OffsetOrder(c.inPorts, k, a); } else { OffsetOrder(c.inPorts, a, k); }
    }
  }

  lemma {:induction false} ShiftedSlots(c: Cell, role: Role, at: nat, s: Slots)
    requires PortShape(c) && HasRole(c, role) && Width(c, role) >= 2 && SlotAt(c, role, true, at) && SlotsOf(c, s)
    requires role == Addr1 || role == Addr2
    ensures SlotsOf(DropIf(c, role),
      s.(we1 := ShiftAt(s.we1, at), we2 := ShiftAt(s.we2, at), clk := ShiftAt(s.clk, at)))
  {
    ShiftedSlot(c, role, at, We1, s.w1, s.we1);
    ShiftedSlot(c, role, at, We2, s.w2, s.we2);
    ShiftedSlot(c, role, at, Clk, true, s.clk);
    DropIfShape(c, role);
    SamePortsRole(c, DropIf(c, role), Addr2);
  }

  /** The low pin of an address port. */
  method TakePin(g: Netlist, n: nat, port: nat, at: nat, ghost role: Role) returns (p: nat)
    requires g.Ready() && n < |g.cells| && PortShape(g.cells[n]) && HasRole(g.cells[n], role)
    requires port == FindPort(g.cells[n].inPorts, role) && at == Offset(g.cells[n].inPorts, port)
    modifies g
    ensures g.Ready() && |g.nets| == |old(g.nets)| && (old(g.tidy) ==> g.tidy) && g.KeepsFree(old(g.pins))
    ensures g.cells == old(g.cells)[n := DropIf(old(g.cells[n]), role)]
    ensures Free(g, p, First(RoleSlots(old(g.cells[n]), role)))
    ensures p < |old(g.pins)| && old(g.pins[p].node).Some?
  {
    PortSlots(g.cells[n], port);
    g.EmptySlots(n);
    assert NodeOk(g.nodes[n], g.pins, n, g.cells[n]);
    p := g.RemoveInputPin(n, at, port);
  }

  method FindDpPorts(ports: seq<Port>, ghost c: Cell) returns (has1: bool, a1: nat, at1: nat, a2: nat, at2: nat,
                     s: Slots)
    requires DpNode(c) && ports == c.inPorts
    ensures has1 == HasRole(c, Addr1) && SlotsOf(c, s)
    ensures has1 ==> a1 == FindPort(ports, Addr1) && at1 == Offset(ports, a1)
    ensures s.has2 ==> a2 == FindPort(ports, Addr2) && at2 == Offset(ports, a2)
  {
    a1, at1 := LookUpPort(ports, Addr1);
    a2, at2 := LookUpPort(ports, Addr2);
    var k1, we1 := LookUpPort(ports, We1);
    var k2, we2 := LookUpPort(ports, We2);
    var k, clk := LookUpPort(ports, Clk);
    has1 := a1 < |ports|;
    s := Slots(a2 < |ports|, k1 < |ports|, k2 < |ports|, we1, we2, clk);
  }

  /** Both low address pins are taken out, the slots found before are shifted along. */
  method CutLow(g: Netlist, n: nat, a1: nat, at1: nat, a2: nat, at2: nat, s: Slots, ghost c: Cell) returns (p1: nat,
                p2: nat, s': Slots)
    requires g.Ready() && n < |g.cells| && c == g.cells[n] && DpSplittable(c) && SlotsOf(c, s)
    requires a1 == FindPort(c.inPorts, Addr1) && at1 == Offset(c.inPorts, a1)
    requires s.has2 ==> a2 == FindPort(c.inPorts, Addr2) && at2 == Offset(c.inPorts, a2)
    modifies g
    ensures g.Ready() && |g.nets| == |old(g.nets)| && (old(g.tidy) ==> g.tidy)
    ensures g.cells == old(g.cells)[n := Cut(c)] && SlotsOf(Cut(c), s')
    ensures Free(g, p1, AddrBit(c, 0)) && (s'.has2 ==> Free(g, p2, AddrBit(c, 1)) && p2 != p1)
  {
    hide Offset, SlotAt, FindPort, SamePorts, PortShape, HasRole, Netlist.Ready;
    ghost var d := DropIf(c, Addr1);
    CutFacts(c, at1, at2, s, d);
    UpdateTwice(g.cells, n, d, Cut(c));
    p1 := TakePin(g, n, a1, at1, Addr1);
    p2 := p1;
    if s.has2 {
      p2 := TakePin(g, n, a2, ShiftAt(at2, at1), Addr2);
    }
    s' := ShiftBoth(s, at1, at2);
  }

  lemma {:induction false} UpdateTwice(cells: seq<Cell>, n: nat, d: Cell, e: Cell)
    requires n < |cells|
    ensures cells[n := d][n := e] == cells[n := e] && cells[n := d][n] == d
  {
  }

  function ShiftSlots(s: Slots, at: nat): Slots {
    s.(we1 := ShiftAt(s.we1, at), we2 := ShiftAt(s.we2, at), clk := ShiftAt(s.clk, at))
  }

  /** First past the first address port, then past the second where it now is. */
  function ShiftBoth(s: Slots, at1: nat, at2: nat): Slots {
    if s.has2 then ShiftSlots(ShiftSlots(s, at1), ShiftAt(at2, at1)) else ShiftSlots(s, at1)
  }

  lemma {:induction false} CutFacts(c: Cell, at1: nat, at2: nat, s: Slots, d: Cell)
    requires DpSplittable(c) && SlotsOf(c, s) && SlotAt(c, Addr1, true, at1) && (s.has2 ==> SlotAt(c, Addr2, true, at2))
    requires d == DropIf(c, Addr1)
    ensures PortShape(d) && HasRole(d, Addr2) == s.has2 && Cut(c) == DropIf(d, Addr2)
    ensures s.has2 ==>
      FindPort(d.inPorts, Addr2) == FindPort(c.inPorts, Addr2) && SlotAt(d, Addr2, true, ShiftAt(at2, at1))
    ensures RoleSlots(d, Addr2) == RoleSlots(c, Addr2)
    ensures SlotsOf(Cut(c), ShiftBoth(s, at1, at2))
  {
    DropIfShape(c, Addr1);
    ShiftedSlots(c, Addr1, at1, s);
    DropIfRoles(c, Addr1, Addr2);
    SamePortsRole(c, d, Addr2);
    if s.has2 {
      ShiftedSlot(c, Addr1, at1, Addr2, true, at2);
      ShiftedSlots(d, Addr2, ShiftAt(at2, at1), ShiftSlots(s, at1));
    }
  }

  // ----- the enables -----

  /** The slots exist on both banks, differ, and are connected on `n`. */
  ghost predicate SlotsIn(cells: seq<Cell>, n: nat, h: nat, s: Slots) {
    && n != h && HasIn(cells, n, s.clk) && cells[n].ins[s.clk].Some?
    && (s.w1 ==> HasIn(cells, n, s.we1) && HasIn(cells, h, s.we1) && cells[n].ins[s.we1].Some? && s.we1 != s.clk)
    && (s.w2 ==> HasIn(cells, n, s.we2) && HasIn(cells, h, s.we2) && cells[n].ins[s.we2].Some? && s.we2 != s.clk)
    && (s.w1 && s.w2 ==> s.we1 != s.we2)
  }

  function AfterFirst(cells: seq<Cell>, n: nat, s: Slots, b1: Option<nat>, e: nat): seq<Cell>
    requires s.w1 ==> HasIn(cells, n, s.we1)
  {
    if s.w1 then AfterUpper(cells, n, s.we1, b1, e) else cells
  }

  /** Both enables of bank `n`, where present. */
  function AfterUppers(cells: seq<Cell>, n: nat, s: Slots, b1: Option<nat>, b2: Option<nat>, e: nat): seq<Cell>
    requires n < |cells| && (s.w1 ==> HasIn(cells, n, s.we1)) && (s.w2 ==> HasIn(cells, n, s.we2))
  {
    if s.w2 then AfterUpper(AfterFirst(cells, n, s, b1, e), n, s.we2, b2, e + One(s.w1))
      else AfterFirst(cells, n, s, b1, e)
  }

  method UpperEnables(g: Netlist, n: nat, h: nat, s: Slots, p1: nat, p2: nat, ghost b1: Option<nat>,
                      ghost b2: Option<nat>)
    returns (q1: nat, q2: nat)
    requires g.Ready() && SlotsIn(g.cells, n, h, s) && Free(g, p1, b1)
    requires s.has2 ==> Free(g, p2, b2) && p2 != p1
    requires s.w2 ==> s.has2
    modifies g
    ensures g.Ready() && |g.nets| == |old(g.nets)| + One(s.w1) + One(s.w2) && (old(g.tidy) ==> g.tidy)
    ensures g.cells == AfterUppers(old(g.cells), n, s, b1, b2, |old(g.nets)|)
    ensures Free(g, p1, b1) && (s.has2 ==> Free(g, p2, b2))
    ensures s.w1 ==> Free(g, q1, old(g.cells[n].ins[s.we1])) && q1 != p1 && (s.has2 ==> q1 != p2)
    ensures s.w2 ==> Free(g, q2, old(g.cells[n].ins[s.we2])) && q2 != p1 && q2 != p2
    ensures s.w1 && s.w2 ==> q1 != q2
  {
    q1, q2 := p1, p1;
    if s.w1 { q1 := UpperEnable(g, n, s.we1, p1, b1); }
    if s.w2 { q2 := UpperEnable(g, n, s.we2, p2, b2); }
  }

  function AfterFirstLower(cells: seq<Cell>, h: nat, s: Slots, b1: Option<nat>, x1: Option<nat>, e: nat): seq<Cell>
    requires s.w1 ==> HasIn(cells, h, s.we1)
  {
    if s.w1 then AfterLower(cells, h, s.we1, b1, x1, e) else cells
  }

  /** Both enables of bank `h`, where present. */
  function AfterLowers(cells: seq<Cell>, h: nat, s: Slots, b1: Option<nat>, b2: Option<nat>, x1: Option<nat>,
                       x2: Option<nat>, e: nat): seq<Cell>
    requires h < |cells| && (s.w1 ==> HasIn(cells, h, s.we1)) && (s.w2 ==> HasIn(cells, h, s.we2))
  {
    if s.w2 then AfterLower(AfterFirstLower(cells, h, s, b1, x1, e), h, s.we2, b2, x2, e + 2 * One(s.w1))
    else AfterFirstLower(cells, h, s, b1, x1, e)
  }

  method LowerEnables(g: Netlist, h: nat, s: Slots, p1: nat, p2: nat, q1: nat, q2: nat, ghost b1: Option<nat>,
                      ghost b2: Option<nat>,
                      ghost x1: Option<nat>, ghost x2: Option<nat>)
    requires g.Ready() && h < |g.cells| && (s.w1 ==> HasIn(g.cells, h, s.we1)) && (s.w2 ==> HasIn(g.cells, h, s.we2))
    requires Free(g, p1, b1) && (s.has2 ==> Free(g, p2, b2) && p2 != p1) && (s.w2 ==> s.has2)
    requires s.w1 ==> Free(g, q1, x1) && q1 != p1 && (s.has2 ==> q1 != p2)
    requires s.w2 ==> Free(g, q2, x2) && q2 != p1 && q2 != p2
    requires s.w1 && s.w2 ==> q1 != q2
    modifies g
    ensures g.Ready() && |g.nets| == |old(g.nets)| + 2 * One(s.w1) + 2 * One(s.w2)
    ensures g.cells == AfterLowers(old(g.cells), h, s, b1, b2, x1, x2, |old(g.nets)|)
    ensures Free(g, p1, b1) && (s.has2 ==> Free(g, p2, b2))
  {
    if s.w1 { LowerEnable(g, h, s.we1, p1, q1, b1, x1); }
    if s.w2 { LowerEnable(g, h, s.we2, p2, q2, b2, x2); }
  }
}
