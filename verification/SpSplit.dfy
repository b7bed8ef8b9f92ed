/** The netlist a single-port depth split leaves behind is a bank split. */
module SpSplit {
  import opened Wrappers
  import opened Bits
  import opened Semantics
  import opened Runs
  import opened Netlists
  import opened RippleCells
  import opened MemoryPorts
  import opened BankSplit

  predicate HasRole(c: Cell, role: Role) {
    FindPort(c.inPorts, role) < |c.inPorts|
  }

  /** A single-port RAM as connect_memory_and_alias leaves it. */
  predicate SpNode(c: Cell) {
    && c.kind.SpMemory? && PortShape(c) && |c.outs| >= 1 && c.outPorts == [|c.outs|]
    && (HasRole(c, We) ==> c.inPorts[FindPort(c.inPorts, We)].width == 1)
  }

  predicate HasSpPorts(c: Cell) {
    HasRole(c, Data) && HasRole(c, Addr) && HasRole(c, We) && HasRole(c, Clk)
  }

  /** A single-port RAM with an address pin to spare. */
  predicate Splittable(c: Cell) {
    SpNode(c) && HasSpPorts(c) && c.inPorts[FindPort(c.inPorts, Addr)].width >= 2
  }

  /** The new nets in the order connect_nodes creates them, `base` being the first. */
  function SpNet(base: nat, tag: Tag): nat {
    match tag
    case GateS(_) => base
    case Inv(_) => base + 1
    case GateH(_) => base + 2
    case Reg(_) => base + 3
    case Nots(i) => base + 4 + 3 * i
    case OutS(i) => base + 5 + 3 * i
    case OutH(i) => base + 6 + 3 * i
  }

  predicate SpHas(w: nat, tag: Tag) {
    match tag
    case GateS(k) => k == 0
    case Inv(k) => k == 0
    case GateH(k) => k == 0
    case Reg(k) => k == 0
    case Nots(i) => i < w
    case OutS(i) => i < w
    case OutH(i) => i < w
  }

  function SpPlan(base: nat, w: nat): Plan {
    Plan((tag: Tag) => SpHas(w, tag), (tag: Tag) => SpNet(base, tag))
  }

  /** A bank: the memory without its low address bit, its enable and outputs on the nets of the plan. */
  function BankCell(c: Cell, m: Plan, upper: bool): Cell
    requires SpNode(c) && HasSpPorts(c) && c.inPorts[FindPort(c.inPorts, Addr)].width >= 2
    requires m.has(GateTag(upper, 0)) && forall i :: 0 <= i < |c.outs| ==> m.has(OutTag(upper, i))
  {
    DroppedShape(c, FindPort(c.inPorts, Addr));
    Rewired(Dropped(c, FindPort(c.inPorts, Addr)), FindPort(c.inPorts, We), m.at(GateTag(upper, 0)))
    .(outs := seq(|c.outs|, (i: nat) requires i < |c.outs| => Some(m.at(OutTag(upper, i)))))
  }

  ghost predicate SpBuilt(a: NL, b: NL, n: nat)
    requires n < |a.cells| && Splittable(a.cells[n])
  {
    var c, h, w := a.cells[n], |a.cells|, |a.cells[n].outs|;
    var m := SpPlan(a.nets, w);
    && b == NL(b.cells, a.nets + 4 + 3 * w, a.zero, a.one, a.pad)
    && |b.cells| == h + 5 + 2 * w
    && (forall k {:trigger a.cells[k]} :: 0 <= k < h && k != n ==> b.cells[k] == a.cells[k])
    && b.cells[n] == BankCell(c, m, true) && b.cells[h] == BankCell(c, m, false)
    && b.cells[h + 1] == GateCell(c, m, GateS(0)) && b.cells[h + 2] == GateCell(c, m, Inv(0))
    && b.cells[h + 3] == GateCell(c, m, GateH(0)) && b.cells[h + 4] == GateCell(c, m, Reg(0))
    && forall j :: 0 <= j < w ==> OutputBuilt(b.cells, c, m, h, j)
  }

  /** The mux and the inverter of output `j`; `h` is the second bank. */
  ghost predicate OutputBuilt(cells: seq<Cell>, c: Cell, m: Plan, h: nat, j: nat) {
    && h + 5 + 2 * j + 1 < |cells| && MuxReady(c, m, j) && GateReady(c, m, Nots(j))
    && cells[h + 5 + 2 * j] == MuxCell(c, m, j) && cells[h + 5 + 2 * j + 1] == GateCell(c, m, Nots(j))
  }

  lemma {:induction false} SpPlanOk(base: nat, w: nat)
    ensures PlanOk(SpPlan(base, w), base)
  {
  }

  /** Dropping the address bit and rewiring the enable act on those two ports only. */
  lemma {:induction false} CutRoles(c: Cell, addr: Role, we: Role, e: nat, role: Role)
    requires PortShape(c) && HasRole(c, addr) && HasRole(c, we) && addr != we
    requires c.inPorts[FindPort(c.inPorts, addr)].width >= 2 && c.inPorts[FindPort(c.inPorts, we)].width == 1
    ensures PortShape(Dropped(c, FindPort(c.inPorts, addr)))
    ensures RoleSlots(Rewired(Dropped(c, FindPort(c.inPorts, addr)), FindPort(c.inPorts, we), e), role) ==
      if role == we then [Some(e)] else if role == addr then Tail(RoleSlots(c, role)) else RoleSlots(c, role)
  {
    hide FindPort;
    var a, w := FindPort(c.inPorts, addr), FindPort(c.inPorts, we);
    DroppedShape(c, a);
    var d := Dropped(c, a);
    FindPortByRoles(c.inPorts, d.inPorts, role);
    DroppedRoles(c, a, role);
    RewiredRoles(d, w, e, role);
    RewiredRoles(c, w, e, role);
    var k := FindPort(c.inPorts, role);
    assert k == a ==> c.inPorts[k].role == role == addr;
    assert k == w ==> c.inPorts[k].role == role == we;
  }

  lemma {:induction false} BankCellRoles(c: Cell, m: Plan, upper: bool, role: Role)
    requires Splittable(c)
    requires m.has(GateTag(upper, 0)) && forall i :: 0 <= i < |c.outs| ==> m.has(OutTag(upper, i))
    ensures RoleSlots(BankCell(c, m, upper), role) ==
      if role == We then [Some(m.at(GateTag(upper, 0)))] else if role == Addr then Tail(RoleSlots(c, role))
        else RoleSlots(c, role)
  {
    CutRoles(c, Addr, We, m.at(GateTag(upper, 0)), role);
  }

  lemma {:induction false} BankCellOf(c: Cell, m: Plan, upper: bool)
    requires Splittable(c)
    requires m.has(GateTag(upper, 0)) && forall i :: 0 <= i < |c.outs| ==> m.has(OutTag(upper, i))
    ensures BankOf(c, BankCell(c, m, upper), m, upper)
  {
    var b := BankCell(c, m, upper);
    BankCellFields(c, m, upper);
    BankCellRoles(c, m, upper, Clk);
    assert AccessOfBank(c, b, m, upper, 0) by {
      BankCellRoles(c, m, upper, Addr);
      BankCellRoles(c, m, upper, We);
      BankCellRoles(c, m, upper, Data);
      RewiredRoles(c, FindPort(c.inPorts, We), 0, We);
    }
  }

  lemma {:induction false} BankCellFields(c: Cell, m: Plan, upper: bool)
    requires Splittable(c)
    requires m.has(GateTag(upper, 0)) && forall i :: 0 <= i < |c.outs| ==> m.has(OutTag(upper, i))
    ensures var b := BankCell(c, m, upper); var a := FindPort(c.inPorts, Addr);
      && b.kind == c.kind && b.outPorts == c.outPorts && |b.outs| == |c.outs|
      && b.inPorts == c.inPorts[a := c.inPorts[a].(width := c.inPorts[a].width - 1)]
      && PortShape(b)
      && forall i :: 0 <= i < |c.outs| ==> b.outs[i] == Some(m.at(OutTag(upper, i)))
  {
    hide FindPort, Offset;
    DroppedShape(c, FindPort(c.inPorts, Addr));
    RewiredShape(Dropped(c, FindPort(c.inPorts, Addr)), FindPort(c.inPorts, We), m.at(GateTag(upper, 0)));
  }

  /** A bank is again a RAM of the same kind, one address bit shorter. */
  lemma {:induction false} BankCellShape(c: Cell, m: Plan, upper: bool)
    requires Splittable(c)
    requires m.has(GateTag(upper, 0)) && forall i :: 0 <= i < |c.outs| ==> m.has(OutTag(upper, i))
    ensures var b := BankCell(c, m, upper);
      && SpNode(b) && HasSpPorts(b)
      && FindPort(b.inPorts, Addr) == FindPort(c.inPorts, Addr)
      && b.inPorts[FindPort(b.inPorts, Addr)].width == c.inPorts[FindPort(c.inPorts, Addr)].width - 1
      && RoleSlots(b, Addr) == Tail(RoleSlots(c, Addr))
  {
    var b := BankCell(c, m, upper);
    BankCellFields(c, m, upper);
    BankCellRoles(c, m, upper, Addr);
    FindPortByRoles(c.inPorts, b.inPorts, Addr);
    FindPortByRoles(c.inPorts, b.inPorts, We);
    FindPortByRoles(c.inPorts, b.inPorts, Data);
    FindPortByRoles(c.inPorts, b.inPorts, Clk);
    assert FindPort(c.inPorts, We) != FindPort(c.inPorts, Addr);
  }

  /** What the pass builds is a bank split. */
  lemma {:induction false} SpBuiltSplits(a: NL, b: NL, n: nat)
    requires n < |a.cells| && Splittable(a.cells[n])
    requires SpBuilt(a, b, n)
    ensures SplitOf(a, b, n, SpPlan(a.nets, |a.cells[n].outs|))
  {
    var c, h, w := a.cells[n], |a.cells|, |a.cells[n].outs|;
    var m := SpPlan(a.nets, w);
    SpPlanOk(a.nets, w);
    BankCellOf(c, m, true);
    BankCellOf(c, m, false);
    forall tag | m.has(tag) && !IsOutTag(tag)
      ensures GateReady(c, m, tag) && GatePlaced(c, b, h, m, tag)
    {
      SpGatePlaced(a, b, n, tag);
    }
    forall i | 0 <= i < w
      ensures MuxReady(c, m, i) && MuxPlaced(c, b, h, m, i)
    {
      SpMuxPlaced(a, b, n, i);
    }
    forall idx {:trigger b.cells[idx]} | h < idx < |b.cells|
      ensures Accounted(c, b.cells[idx], m)
    {
      SpAccounted(a, b, n, idx);
    }
  }

  lemma {:induction false} SpMuxPlaced(a: NL, b: NL, n: nat, i: nat)
    requires n < |a.cells| && Splittable(a.cells[n]) && SpBuilt(a, b, n) && i < |a.cells[n].outs|
    ensures var c, m := a.cells[n], SpPlan(a.nets, |a.cells[n].outs|);
      MuxReady(c, m, i) && MuxPlaced(c, b, |a.cells|, m, i)
  {
    var c, h, m := a.cells[n], |a.cells|, SpPlan(a.nets, |a.cells[n].outs|);
    assert OutputBuilt(b.cells, c, m, h, i);
    assert b.cells[h + 5 + 2 * i] == MuxCell(c, m, i);
  }

  lemma {:induction false} SpGatePlaced(a: NL, b: NL, n: nat, tag: Tag)
    requires n < |a.cells| && Splittable(a.cells[n]) && SpBuilt(a, b, n)
    requires SpHas(|a.cells[n].outs|, tag) && !IsOutTag(tag)
    ensures var c, m := a.cells[n], SpPlan(a.nets, |a.cells[n].outs|);
      GateReady(c, m, tag) && GatePlaced(c, b, |a.cells|, m, tag)
  {
    hide HasSpPorts, GateCell;
    var c, h, w := a.cells[n], |a.cells|, |a.cells[n].outs|;
    var m := SpPlan(a.nets, w);
    match tag
    case GateS(_) => assert b.cells[h + 1] == GateCell(c, m, tag);
    case Inv(_) => assert b.cells[h + 2] == GateCell(c, m, tag);
    case GateH(_) => assert b.cells[h + 3] == GateCell(c, m, tag);
    case Reg(_) => assert b.cells[h + 4] == GateCell(c, m, tag);
    case Nots(i) =>
      assert c.outs[i].Some? && OutputBuilt(b.cells, c, m, h, i);
      assert b.cells[h + 5 + 2 * i + 1] == GateCell(c, m, tag);
  }

  lemma {:induction false} SpAccounted(a: NL, b: NL, n: nat, idx: nat)
    requires n < |a.cells| && Splittable(a.cells[n]) && SpBuilt(a, b, n)
    requires |a.cells| < idx < |b.cells|
    ensures Accounted(a.cells[n], b.cells[idx], SpPlan(a.nets, |a.cells[n].outs|))
  {
    hide HasSpPorts, GateCell;
    var c, h, w := a.cells[n], |a.cells|, |a.cells[n].outs|;
    var m := SpPlan(a.nets, w);
    if idx < h + 5 {
      var tag := if idx == h + 1 then GateS(0) else if idx == h + 2 then Inv(0) else if idx == h + 3 then GateH(0)
        else Reg(0);
      assert GateReady(c, m, tag) && b.cells[idx] == GateCell(c, m, tag);
    } else {
      var j := (idx - h - 5) / 2;
      assert c.outs[j].Some? && OutputBuilt(b.cells, c, m, h, j);
      if idx == h + 5 + 2 * j {
        assert b.cells[idx] == MuxCell(c, m, j);
      } else {
        assert GateReady(c, m, Nots(j)) && b.cells[idx] == GateCell(c, m, Nots(j));
      }
    }
  }
}
