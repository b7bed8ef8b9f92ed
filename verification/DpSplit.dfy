/** The netlist a dual-port depth split leaves behind is a bank split. */
module DpSplit {
  import opened Wrappers
  import opened Bits
  import opened Semantics
  import opened Runs
  import opened Netlists
  import opened RippleCells
  import opened RippleBuild
  import opened MemoryPorts
  import opened BankSplit
  import opened SpSplit

  function Width(c: Cell, role: Role): nat {
    if HasRole(c, role) then c.inPorts[FindPort(c.inPorts, role)].width else 0
  }

  /** A dual-port RAM: outputs out1, or out1 and out2; a second enable or output comes with a second address. */
  predicate DpNode(c: Cell) {
    && c.kind.DpMemory? && PortShape(c) && HasRole(c, Clk)
    && |c.outs| >= 1 && c.outPorts == (if |c.outPorts| == 1 then [|c.outs|] else [|c.outs| / 2, |c.outs| / 2])
    && (|c.outPorts| != 1 ==> |c.outs| % 2 == 0 && HasRole(c, Addr2))
    && (HasRole(c, We1) ==> Width(c, We1) == 1)
    && (HasRole(c, We2) ==> Width(c, We2) == 1 && HasRole(c, Addr2))
    && (HasRole(c, Addr1) && HasRole(c, Addr2) ==> Width(c, Addr2) == Width(c, Addr1))
  }

  predicate DpSplittable(c: Cell) {
    DpNode(c) && Width(c, Addr1) >= 2
  }

  // ----- ports that may be absent -----

  /** The node without the first pin of a port it may have. */
  function DropIf(c: Cell, role: Role): Cell
    requires PortShape(c)
  {
    if HasRole(c, role) then Dropped(c, FindPort(c.inPorts, role)) else c
  }

  /** The node with another net on the first pin of a port it may have. */
  function RewireIf(c: Cell, role: Role, e: nat): Cell
    requires PortShape(c)
  {
    if HasRole(c, role) then Rewired(c, FindPort(c.inPorts, role), e) else c
  }

  /** Same ports in the same order, whatever their widths. */
  ghost predicate SamePorts(c: Cell, b: Cell) {
    && b.kind == c.kind && b.outPorts == c.outPorts && b.outs == c.outs && |b.inPorts| == |c.inPorts|
    && forall k :: 0 <= k < |c.inPorts| ==> b.inPorts[k].role == c.inPorts[k].role
  }

  lemma {:induction false} SamePortsRole(c: Cell, b: Cell, role: Role)
    requires SamePorts(c, b)
    ensures FindPort(b.inPorts, role) == FindPort(c.inPorts, role) && HasRole(b, role) == HasRole(c, role)
  {
    FindPortByRoles(c.inPorts, b.inPorts, role);
  }

  lemma {:induction false} DropIfShape(c: Cell, role: Role)
    requires PortShape(c) && (HasRole(c, role) ==> Width(c, role) >= 2)
    ensures PortShape(DropIf(c, role)) && SamePorts(c, DropIf(c, role))
    ensures forall k :: 0 <= k < |c.inPorts| ==>
      DropIf(c, role).inPorts[k].width == if k == FindPort(c.inPorts, role) then c.inPorts[k].width - 1
        else c.inPorts[k].width
  {
    if HasRole(c, role) { DroppedShape(c, FindPort(c.inPorts, role)); }
  }

  lemma {:induction false} DropIfRoles(c: Cell, role: Role, other: Role)
    requires PortShape(c) && (HasRole(c, role) ==> Width(c, role) >= 2)
    ensures RoleSlots(DropIf(c, role), other) == if other == role then Tail(RoleSlots(c, other))
      else RoleSlots(c, other)
  {
    if HasRole(c, role) {
      DroppedRoles(c, FindPort(c.inPorts, role), other);
    }
  }

  lemma {:induction false} RewireIfRoles(c: Cell, role: Role, e: nat, other: Role)
    requires PortShape(c) && (HasRole(c, role) ==> Width(c, role) == 1)
    ensures PortShape(RewireIf(c, role, e)) && SamePorts(c, RewireIf(c, role, e))
    ensures RewireIf(c, role, e).inPorts == c.inPorts
    ensures RoleSlots(RewireIf(c, role, e), other) == if other == role && HasRole(c, role) then [Some(e)]
      else RoleSlots(c, other)
  {
    if HasRole(c, role) {
      RewiredShape(c, FindPort(c.inPorts, role), e);
      RewiredRoles(c, FindPort(c.inPorts, role), e, other);
    }
  }

  /** The memory without its low address bits. */
  function Cut(c: Cell): (d: Cell)
    requires DpSplittable(c)
    ensures PortShape(d) && SamePorts(c, d)
  {
    DropIfShape(c, Addr1);
    SamePortsRole(c, DropIf(c, Addr1), Addr2);
    DropIfShape(DropIf(c, Addr1), Addr2);
    DropIf(DropIf(c, Addr1), Addr2)
  }

  lemma {:induction false} CutRole(c: Cell, other: Role)
    requires DpSplittable(c)
    ensures RoleSlots(Cut(c), other) == if other == Addr1 || other == Addr2 then Tail(RoleSlots(c, other))
      else RoleSlots(c, other)
    ensures HasRole(Cut(c), other) == HasRole(c, other)
    ensures Width(Cut(c), other) == if (other == Addr1 || other == Addr2)
      && HasRole(c, other) then Width(c, other) - 1 else Width(c, other)
  {
    var d := DropIf(c, Addr1);
    DropIfShape(c, Addr1);
    SamePortsRole(c, d, Addr2);
    DropIfRole(c, Addr1, other, d);
    DropIfRole(d, Addr2, other, Cut(c));
    SamePortsRole(c, d, other);
  }

  lemma {:induction false} DropIfRole(c: Cell, role: Role, other: Role, d: Cell)
    requires PortShape(c) && (HasRole(c, role) ==> Width(c, role) >= 2) && d == DropIf(c, role)
    ensures RoleSlots(d, other) == if other == role then Tail(RoleSlots(c, other)) else RoleSlots(c, other)
    ensures HasRole(d, other) == HasRole(c, other)
    ensures Width(d, other) == if other == role && HasRole(c, other) then Width(c, other) - 1 else Width(c, other)
  {
    DropIfShape(c, role);
    SamePortsRole(c, d, other);
    DropIfRoles(c, role, other);
  }

  // ----- the plan -----

  function D(c: Cell): nat { FirstOutWidth(c) }

  function One(b: bool): nat { if b then 1 else 0 }

  /** How many gates the enables need. */
  function Gates(c: Cell): nat { 3 * One(HasRole(c, We1)) + 3 * One(HasRole(c, We2)) }

  predicate HasEnable(c: Cell, k: nat) { (k == 0 && HasRole(c, We1)) || (k == 1 && HasRole(c, We2)) }

  predicate DpHas(c: Cell, tag: Tag) {
    match tag
    case GateS(k) => HasEnable(c, k)
    case Inv(k) => HasEnable(c, k)
    case GateH(k) => HasEnable(c, k)
    case Reg(k) => k == 0 || (k == 1 && |c.outs| > D(c))
    case Nots(i) => i < |c.outs|
    case OutS(i) => i < |c.outs|
    case OutH(i) => i < |c.outs|
  }

  /** Where in the creation order of the gates an enable's gate comes. */
  function GateIndex(c: Cell, tag: Tag): nat {
    var w1, w2 := One(HasRole(c, We1)), One(HasRole(c, We2));
    match tag
    case GateS(k) => if k == 0 then 0 else w1
    case Inv(k) => w1 + w2 + if k == 0 then 0 else 2 * w1
    case GateH(k) => w1 + w2 + 1 + if k == 0 then 0 else 2 * w1
    case _ => 0
  }

  /** The new nets in the order connect_nodes creates them, `base` being the first. */
  function DpNet(c: Cell, base: nat, tag: Tag): nat {
    var r := base + Gates(c);
    match tag
    case Reg(k) => if k == 0 then r else r + 1 + 3 * D(c)
    case Nots(i) => r + 1 + 3 * i + One(i >= D(c))
    case OutS(i) => r + 2 + 3 * i + One(i >= D(c))
    case OutH(i) => r + 3 + 3 * i + One(i >= D(c))
    case _ => base + GateIndex(c, tag)
  }

  /** The new cells in creation order; `h` is the second bank. */
  function DpCell(c: Cell, h: nat, tag: Tag): nat {
    var r := h + 1 + Gates(c);
    match tag
    case Reg(k) => if k == 0 then r else r + 1 + 2 * D(c)
    case Nots(i) => r + 2 + 2 * i + One(i >= D(c))
    case _ => h + 1 + GateIndex(c, tag)
  }

  /** The mux of output `i` comes just before its inverter. */
  function DpMux(c: Cell, h: nat, i: nat): nat {
    h + 2 + Gates(c) + 2 * i + One(i >= D(c))
  }

  function DpPlan(c: Cell, base: nat): Plan {
    Plan((tag: Tag) => DpHas(c, tag), (tag: Tag) => DpNet(c, base, tag))
  }

  lemma {:induction false} DpPlanOk(c: Cell, base: nat)
    requires DpNode(c)
    ensures PlanOk(DpPlan(c, base), base)
    ensures forall tag :: DpHas(c, tag) ==>
      DpNet(c, base, tag) < base + Gates(c) + 1 + 3 * |c.outs| + One(|c.outs| > D(c))
  {
    forall t, u | DpHas(c, t) && DpHas(c, u) && DpNet(c, base, t) == DpNet(c, base, u)
      ensures t == u
    {
      DpNetInjective(c, base, t, u);
    }
  }

  lemma {:induction false} DpNetInjective(c: Cell, base: nat, t: Tag, u: Tag)
    requires DpNode(c) && DpHas(c, t) && DpHas(c, u) && DpNet(c, base, t) == DpNet(c, base, u)
    ensures t == u
  {
    assert |c.outs| == D(c) || |c.outs| == 2 * D(c);
  }

  // ----- the banks -----

  function DpBank(c: Cell, base: nat, upper: bool): Cell
    requires DpSplittable(c)
  {
    Enabled2(c, Cut(c), base,
      upper).(outs := seq(|c.outs|, (i: nat) requires i < |c.outs| => Some(DpNet(c, base, OutTag(upper, i)))))
  }

  /** Both enables, where present, on their gates. */
  function Enabled2(c: Cell, d: Cell, base: nat, upper: bool): (r: Cell)
    requires PortShape(d)
  {
    var d1 := RewireIf(d, We1, DpNet(c, base, GateTag(upper, 0)));
    if HasRole(d, We1) then
      RewiredShape(d, FindPort(d.inPorts, We1), DpNet(c, base, GateTag(upper, 0)));
      RewireIf(d1, We2, DpNet(c, base, GateTag(upper, 1)))
    else RewireIf(d1, We2, DpNet(c, base, GateTag(upper, 1)))
  }

  lemma {:induction false} Enabled2Role(c: Cell, d: Cell, base: nat, upper: bool, role: Role)
    requires PortShape(d) && (HasRole(d, We1) ==> Width(d, We1) == 1) && (HasRole(d, We2) ==> Width(d, We2) == 1)
    ensures var r := Enabled2(c, d, base, upper);
      && PortShape(r) && SamePorts(d, r) && r.inPorts == d.inPorts
      && RoleSlots(r, role) ==
        if role == We1 && HasRole(d, We1) then [Some(DpNet(c, base, GateTag(upper, 0)))]
        else if role == We2 && HasRole(d, We2) then [Some(DpNet(c, base, GateTag(upper, 1)))]
        else RoleSlots(d, role)
  {
    var d1 := RewireIf(d, We1, DpNet(c, base, GateTag(upper, 0)));
    RewireIfRoles(d, We1, DpNet(c, base, GateTag(upper, 0)), role);
    RewireIfRoles(d1, We2, DpNet(c, base, GateTag(upper, 1)), role);
  }

  lemma {:induction false} DpBankFields(c: Cell, base: nat, upper: bool)
    requires DpSplittable(c)
    ensures var b, d := DpBank(c, base, upper), Cut(c);
      && PortShape(b) && b.kind == c.kind && b.outPorts == c.outPorts && |b.outs| == |c.outs| && b.inPorts == d.inPorts
      && forall i :: 0 <= i < |c.outs| ==> b.outs[i] == Some(DpNet(c, base, OutTag(upper, i)))
  {
    hide FindPort, Offset, DropIf;
    CutRole(c, We1);
    CutRole(c, We2);
    Enabled2Role(c, Cut(c), base, upper, Clk);
  }

  lemma {:induction false} DpBankRole(c: Cell, base: nat, upper: bool, role: Role)
    requires DpSplittable(c)
    ensures RoleSlots(DpBank(c, base, upper), role) ==
      if role == We1 && HasRole(c, We1) then [Some(DpNet(c, base, GateTag(upper, 0)))]
      else if role == We2 && HasRole(c, We2) then [Some(DpNet(c, base, GateTag(upper, 1)))]
      else if role == Addr1 || role == Addr2 then Tail(RoleSlots(c, role))
      else RoleSlots(c, role)
  {
    CutRole(c, role);
    CutRole(c, We1);
    CutRole(c, We2);
    Enabled2Role(c, Cut(c), base, upper, role);
    assert RoleSlots(DpBank(c, base, upper), role) == RoleSlots(Enabled2(c, Cut(c), base, upper), role);
  }

  /** A bank is again a dual-port RAM, one address bit shorter. */
  lemma {:induction false} DpBankShape(c: Cell, base: nat, upper: bool)
    requires DpSplittable(c)
    ensures DpNode(DpBank(c, base, upper)) && HasRole(DpBank(c, base, upper), Addr1)
  {
    hide Offset, PortShape, FindPort, DropIf;
    var b, d := DpBank(c, base, upper), Cut(c);
    DpBankFields(c, base, upper);
    CutRole(c, We1);
    CutRole(c, We2);
    CutRole(c, Addr1);
    CutRole(c, Addr2);
    CutRole(c, Clk);
    assert forall role :: HasRole(b, role) == HasRole(d, role) && Width(b, role) == Width(d, role);
  }

  lemma {:induction false} EnableSlots(c: Cell, role: Role)
    requires PortShape(c)
    ensures RoleSlots(c, role) == [] <==> !HasRole(c, role)
  {
    if HasRole(c, role) { PortSlots(c, FindPort(c.inPorts, role)); }
  }

  /** The slots of a bank, port by port. */
  function BankSlots(c: Cell, base: nat, upper: bool, role: Role): seq<Option<nat>> {
    if role == We1 && HasRole(c, We1) then [Some(DpNet(c, base, GateTag(upper, 0)))]
    else if role == We2 && HasRole(c, We2) then [Some(DpNet(c, base, GateTag(upper, 1)))]
    else if role == Addr1 || role == Addr2 then Tail(RoleSlots(c, role))
    else RoleSlots(c, role)
  }

  lemma {:induction false} DpBankOf(c: Cell, base: nat, upper: bool)
    requires DpSplittable(c)
    ensures BankOf(c, DpBank(c, base, upper), DpPlan(c, base), upper)
  {
    forall role ensures RoleSlots(DpBank(c, base, upper), role) == BankSlots(c, base, upper, role) {
      DpBankRole(c, base, upper, role);
    }
    DpBankFields(c, base, upper);
    BankSlotsOf(c, DpBank(c, base, upper), base, upper);
  }

  lemma {:induction false} BankAccessOf(c: Cell, b: Cell, base: nat, upper: bool, k: nat, p: Access)
    requires PortShape(c) && c.kind.DpMemory? && k < 2 && p == Accesses(c.kind)[k]
    requires RoleSlots(b, p.addr) == BankSlots(c, base, upper, p.addr)
    requires RoleSlots(b, p.data) == BankSlots(c, base, upper, p.data)
    requires RoleSlots(b, p.we) == BankSlots(c, base, upper, p.we)
    ensures AccessOfBank(c, b, DpPlan(c, base), upper, k)
  {
    hide RoleSlots;
    assert p == if k == 0 then Access(Addr1, We1, Data1) else Access(Addr2, We2, Data2);
    EnableSlots(c, p.we);
    assert HasEnable(c, k) == HasRole(c, p.we);
  }

  lemma {:induction false} BankSlotsOf(c: Cell, b: Cell, base: nat, upper: bool)
    requires PortShape(c) && c.kind.DpMemory?
    requires b.kind == c.kind && b.outPorts == c.outPorts && |b.outs| == |c.outs|
    requires forall role {:trigger RoleSlots(b, role)} :: RoleSlots(b, role) == BankSlots(c, base, upper, role)
    requires forall i :: 0 <= i < |c.outs| ==> b.outs[i] == Some(DpNet(c, base, OutTag(upper, i)))
    ensures BankOf(c, b, DpPlan(c, base), upper)
  {
    forall k | 0 <= k < |Accesses(c.kind)|
      ensures AccessOfBank(c, b, DpPlan(c, base), upper, k)
    {
      BankAccessOf(c, b, base, upper, k, Accesses(c.kind)[k]);
    }
    forall i | 0 <= i < |c.outs| ensures DpHas(c, OutTag(upper, i)) {}
  }

  lemma {:induction false} DroppedInRange(c: Cell, role: Role, nets: nat)
    requires PortShape(c) && InRange(c, nets)
    ensures InRange(DropIf(c, role), nets)
  {
    if HasRole(c, role) {
      var a := FindPort(c.inPorts, role);
      var d := Dropped(c, a);
      PortSlots(c, a);
      forall i | 0 <= i < |d.ins| && d.ins[i].Some? ensures d.ins[i].value < nets {
        assert d.ins[i] == if i < Offset(c.inPorts, a) then c.ins[i] else c.ins[i + 1];
      }
    }
  }

  lemma {:induction false} RewiredInRange(c: Cell, role: Role, e: nat, nets: nat)
    requires PortShape(c) && InRange(c, nets) && e < nets
    ensures InRange(RewireIf(c, role, e), nets)
  {
    if HasRole(c, role) { PortSlots(c, FindPort(c.inPorts, role)); }
  }

  lemma {:induction false} DpBankInRange(c: Cell, base: nat, upper: bool, nets: nat)
    requires DpSplittable(c) && InRange(c, base)
    requires nets == base + Gates(c) + 1 + 3 * |c.outs| + One(|c.outs| > D(c))
    ensures InRange(DpBank(c, base, upper), nets)
  {
    hide FindPort, DistinctRoles, RewireIf, PortShape;
    CutInRange(c, base);
    CutRole(c, We1);
    CutRole(c, We2);
    EnabledInRange(c, Cut(c), base, upper, nets);
    DpPlanOk(c, base);
    DpBankFields(c, base, upper);
    assert forall i :: 0 <= i < |c.outs| ==> DpHas(c, OutTag(upper, i));
  }

  lemma {:induction false} CutInRange(c: Cell, nets: nat)
    requires DpSplittable(c) && InRange(c, nets)
    ensures InRange(Cut(c), nets)
  {
    DropIfShape(c, Addr1);
    DroppedInRange(c, Addr1, nets);
    DroppedInRange(DropIf(c, Addr1), Addr2, nets);
  }

  lemma {:induction false} EnabledInRange(c: Cell, d: Cell, base: nat, upper: bool, nets: nat)
    requires PortShape(d) && InRange(d, base) && base + Gates(c) < nets
    requires HasRole(d, We1) == HasRole(c, We1) && HasRole(d, We2) == HasRole(c, We2)
    requires (HasRole(d, We1) ==> Width(d, We1) == 1) && (HasRole(d, We2) ==> Width(d, We2) == 1)
    ensures InRange(Enabled2(c, d, base, upper), nets)
  {
    var e1, e2 := DpNet(c, base, GateTag(upper, 0)), DpNet(c, base, GateTag(upper, 1));
    RewireIfRoles(d, We1, e1, Clk);
    assert HasRole(d, We1) ==> e1 < nets;
    assert HasRole(d, We2) ==> e2 < nets;
    if HasRole(d, We1) { RewiredInRange(d, We1, e1, nets); }
    if HasRole(d, We2) { RewiredInRange(RewireIf(d, We1, e1), We2, e2, nets); }
  }

  // ----- what the pass builds -----

  ghost predicate DpBuilt(a: NL, b: NL, n: nat)
    requires n < |a.cells| && DpSplittable(a.cells[n])
  {
    var c, h := a.cells[n], |a.cells|;
    var two := One(|c.outs| > D(c));
    && b == NL(b.cells, a.nets + Gates(c) + 1 + 3 * |c.outs| + two, a.zero, a.one, a.pad)
    && |b.cells| == h + 2 + Gates(c) + 2 * |c.outs| + two
    && OtherCells(a.cells, b.cells, n)
    && b.cells[n] == DpBank(c, a.nets, true) && b.cells[h] == DpBank(c, a.nets, false)
    && (forall tag :: DpHas(c, tag) && !IsOutTag(tag) ==> DpGateBuilt(a, b, n, tag))
    && (forall i :: 0 <= i < |c.outs| ==> DpMuxBuilt(a, b, n, i))
  }

  ghost predicate DpGateBuilt(a: NL, b: NL, n: nat, tag: Tag)
    requires n < |a.cells|
  {
    var c, h, m := a.cells[n], |a.cells|, DpPlan(a.cells[n], a.nets);
    GateReady(c, m, tag) && CellIs(b.cells, DpCell(c, h, tag), GateCell(c, m, tag))
  }

  ghost predicate DpMuxBuilt(a: NL, b: NL, n: nat, i: nat)
    requires n < |a.cells|
  {
    var c, h, m := a.cells[n], |a.cells|, DpPlan(a.cells[n], a.nets);
    MuxReady(c, m, i) && CellIs(b.cells, DpMux(c, h, i), MuxCell(c, m, i))
  }

  /** Which gate is the new cell `idx`, a mux being named by its inverter. */
  function CellTag(c: Cell, h: nat, idx: nat): Tag
    requires idx > h
  {
    var g, w1, w2, j := Gates(c), One(HasRole(c, We1)), One(HasRole(c, We2)), idx - h - 1;
    if j < w1 then GateS(0)
    else if j < w1 + w2 then GateS(1)
    else if j < w1 + w2 + 2 * w1 then (if j == w1 + w2 then Inv(0) else GateH(0))
    else if j < g then (if j == w1 + w2 + 2 * w1 then Inv(1) else GateH(1))
    else if j == g then Reg(0)
    else if j < g + 1 + 2 * D(c) then Nots((j - g - 1) / 2)
    else if j == g + 1 + 2 * D(c) then Reg(1)
    else Nots((j - g - 2) / 2)
  }

  lemma {:induction false} CellTagIs(c: Cell, h: nat, idx: nat)
    requires DpNode(c) && h < idx < h + 2 + Gates(c) + 2 * |c.outs| + One(|c.outs| > D(c))
    ensures var tag := CellTag(c, h, idx);
      && DpHas(c, tag) && !IsOutTag(tag)
      && (idx == DpCell(c, h, tag) || (tag.Nots? && idx == DpMux(c, h, tag.i)))
  {
    assert |c.outs| == D(c) || |c.outs| == 2 * D(c);
  }

  lemma {:induction false} DpBuiltSplits(a: NL, b: NL, n: nat)
    requires n < |a.cells| && DpSplittable(a.cells[n]) && DpBuilt(a, b, n)
    ensures SplitOf(a, b, n, DpPlan(a.cells[n], a.nets))
  {
    var c, h, m := a.cells[n], |a.cells|, DpPlan(a.cells[n], a.nets);
    DpPlanOk(c, a.nets);
    DpBankOf(c, a.nets, true);
    DpBankOf(c, a.nets, false);
    forall tag | m.has(tag) && !IsOutTag(tag)
      ensures GateReady(c, m, tag) && GatePlaced(c, b, h, m, tag)
    {
      assert DpGateBuilt(a, b, n, tag);
      assert b.cells[DpCell(c, h, tag)] == GateCell(c, m, tag);
    }
    forall i | 0 <= i < |c.outs|
      ensures MuxReady(c, m, i) && MuxPlaced(c, b, h, m, i)
    {
      assert DpMuxBuilt(a, b, n, i);
      assert b.cells[DpMux(c, h, i)] == MuxCell(c, m, i);
    }
    forall idx {:trigger b.cells[idx]} | h < idx < |b.cells|
      ensures Accounted(c, b.cells[idx], m)
    {
      DpAccounted(a, b, n, idx);
    }
  }

  lemma {:induction false} DpAccounted(a: NL, b: NL, n: nat, idx: nat)
    requires n < |a.cells| && DpSplittable(a.cells[n]) && DpBuilt(a, b, n) && |a.cells| < idx < |b.cells|
    ensures Accounted(a.cells[n], b.cells[idx], DpPlan(a.cells[n], a.nets))
  {
    var c, h, m := a.cells[n], |a.cells|, DpPlan(a.cells[n], a.nets);
    var tag := CellTag(c, h, idx);
    CellTagIs(c, h, idx);
    if idx == DpCell(c, h, tag) {
      assert DpGateBuilt(a, b, n, tag);
    } else {
      assert DpMuxBuilt(a, b, n, tag.i);
    }
  }
}
