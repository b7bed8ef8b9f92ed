/** Filling the data and output ports of a RAM up to the width of the hard block. */
module WidthFill {
  import opened Wrappers
  import opened Bits
  import opened Semantics
  import opened Runs
  import opened Netlists
  import opened MemoryPorts
  import opened BankSplit
  import opened SpSplit
  import opened WidthSlices
  import opened WidthParts
  import opened WidthPad
  import opened WidthPadded

  function RolePort(c: Cell, role: Role): nat {
    FindPort(c.inPorts, role)
  }

  /** The memory after its data port was filled up, if there was anything to fill. */
  function InFilled(c: Cell, role: Role, target: nat, pad: nat): Cell
    requires HasRole(c, role) && Offset(c.inPorts, RolePort(c, role)) + c.inPorts[RolePort(c, role)].width <= |c.ins|
  {
    if c.inPorts[RolePort(c, role)].width < target then PaddedIn(c, RolePort(c, role), target, pad) else c
  }

  function OutFilled(c: Cell, j: nat, at: nat, target: nat): Cell
    requires j < |c.outPorts| && at <= |c.outs|
  {
    if c.outPorts[j] < target then PaddedOut(c, j, at, target) else c
  }

  lemma {:induction false} PortEnds(c: Cell, role: Role)
    requires HasRole(c, role) && Offset(c.inPorts, |c.inPorts|) == |c.ins|
    ensures Offset(c.inPorts, RolePort(c, role)) + c.inPorts[RolePort(c, role)].width <= |c.ins|
  {
    OffsetOrder(c.inPorts, RolePort(c, role), |c.inPorts|);
  }

  lemma {:induction false} SameCell(a: NL, b: NL, n: nat)
    requires n < |a.cells| && b == NL(a.cells[n := a.cells[n]], a.nets, a.zero, a.one, a.pad)
    ensures RunEquivalent(a, b)
  {
    assert b == a;
    RunEquivalentReflexive(a);
  }

  lemma {:induction false} InFilledEquivalent(a: NL, b: NL, n: nat, role: Role, target: nat, d: nat)
    requires n < |a.cells| && Padding(a.cells[n], d) && HasRole(a.cells[n], role) && IsData(a.cells[n].kind, role)
    ensures Offset(a.cells[n].inPorts, RolePort(a.cells[n], role))
      + a.cells[n].inPorts[RolePort(a.cells[n], role)].width <= |a.cells[n].ins|
    ensures b == NL(a.cells[n := InFilled(a.cells[n], role, target, a.pad)], a.nets, a.zero, a.one, a.pad) ==>
      RunEquivalent(a, b) && Padding(b.cells[n], d) && SameDepth(a.cells[n], b.cells[n])
  {
    hide PaddedIn, SameColumns, Padding, RunEquivalent;
    var c := a.cells[n];
    PaddingEnds(c, role, d);
    if b == NL(a.cells[n := InFilled(c, role, target, a.pad)], a.nets, a.zero, a.one, a.pad) {
      if c.inPorts[RolePort(c, role)].width < target {
        PaddedInColumns(c, RolePort(c, role), target, a.pad, d);
        SameColumnsEquivalent(a, b, n, InFilled(c, role, target, a.pad), d);
        SameColumnsDepth(c, InFilled(c, role, target, a.pad), d);
      } else {
        SameCell(a, b, n);
      }
    }
  }

  lemma {:induction false} PaddingEnds(c: Cell, role: Role, d: nat)
    requires Padding(c, d) && HasRole(c, role)
    ensures Offset(c.inPorts, RolePort(c, role)) + c.inPorts[RolePort(c, role)].width <= |c.ins|
    ensures DistinctRoles(c.inPorts) && Offset(c.inPorts, |c.inPorts|) == |c.ins| && AllConnected(c.ins) && IsMemory(c)
  {
    PortEnds(c, role);
  }

  lemma {:induction false} PaddingOuts(c: Cell, d: nat)
    requires Padding(c, d)
    ensures c.kind.SpMemory? ==> |c.outPorts| == 1 && c.outPorts[0] == |c.outs|
    ensures c.kind.DpMemory? ==> |c.outPorts| == 2 && c.outPorts[0] + c.outPorts[1] == |c.outs|
  {
  }

  lemma {:induction false} OutFilledEquivalent(a: NL, b: NL, n: nat, j: nat, at: nat, target: nat, d: nat)
    requires n < |a.cells| && Padding(a.cells[n], d) && j < |a.cells[n].outPorts|
    requires at == if a.cells[n].kind.DpMemory? && j == 0 then a.cells[n].outPorts[0] else |a.cells[n].outs|
    ensures at <= |a.cells[n].outs|
    ensures b == NL(a.cells[n := OutFilled(a.cells[n], j, at, target)], a.nets, a.zero, a.one, a.pad) ==>
      RunEquivalent(a, b) && Padding(b.cells[n], d) && SameDepth(a.cells[n], b.cells[n])
  {
    hide PaddedOut, SameColumns, RunEquivalent;
    var c := a.cells[n];
    if b == NL(a.cells[n := OutFilled(c, j, at, target)], a.nets, a.zero, a.one, a.pad) {
      if c.outPorts[j] < target {
        PaddedOutColumns(c, j, at, target, d);
        SameColumnsEquivalent(a, b, n, OutFilled(c, j, at, target), d);
        SameColumnsDepth(c, OutFilled(c, j, at, target), d);
      } else {
        SameCell(a, b, n);
      }
    }
  }

  /** pad_memory_input_port: every run goes on as before. */
  method PadMemoryInputPort(g: Netlist, n: nat, role: Role, target: nat, ghost d: nat)
    requires g.Valid() && n < |g.cells| && Padding(g.cells[n], d)
    requires HasRole(g.cells[n], role) && IsData(g.cells[n].kind, role)
    modifies g
    ensures g.Valid() && RunEquivalent(old(g.Meaning()), g.Meaning()) && OtherNodes(old(g.nodes), g.nodes, n, n)
    ensures n < |g.cells| && Padding(g.cells[n], d) && SameDepth(old(g.cells[n]), g.cells[n])
    ensures Offset(old(g.cells[n].inPorts), old(RolePort(g.cells[n], role)))
      + old(g.cells[n].inPorts[RolePort(g.cells[n], role)].width)
      <= old(|g.cells[n].ins|)
    ensures g.cells == old(g.cells)[n := InFilled(old(g.cells[n]), role, target, g.padNet)]
  {
    hide Padding, RunEquivalent;
    ghost var c, a := g.cells[n], g.Meaning();
    PaddingEnds(c, role, d);
    FillInputPort(g, n, role, target, c);
    InFilledEquivalent(a, g.Meaning(), n, role, target, d);
  }

  method FillInputPort(g: Netlist, n: nat, role: Role, target: nat, ghost c: Cell)
    requires g.Valid() && n < |g.cells| && c == g.cells[n] && HasRole(c, role) && DistinctRoles(c.inPorts)
    requires Offset(c.inPorts, |c.inPorts|) == |c.ins| && AllConnected(c.ins)
    modifies g
    ensures g.Valid() && |g.nets| == |old(g.nets)| && OtherNodes(old(g.nodes), g.nodes, n, n)
    ensures Offset(c.inPorts, RolePort(c, role)) + c.inPorts[RolePort(c, role)].width <= |c.ins|
    ensures g.cells == old(g.cells)[n := InFilled(c, role, target, g.padNet)]
  {
    hide FindPort, Offset;
    assert NodeOk(g.nodes[n], g.pins, n, g.cells[n]);
    PortEnds(c, role);
    var port, index := LookUpPort(g.nodes[n].inPorts, role);
    var size := g.nodes[n].inPorts[port].width;
    if target > size {
      var diff := target - size;
      g.AllocateMoreInputs(n, diff);
      ShiftInputsUp(g, n, index + size, diff, c.ins);
      FillWithPads(g, n, index + size, diff, c.ins);
      g.SetInputPortSize(n, port, target);
    }
  }

  /** pad_memory_output_port, for output port `j`, whose first pin is in slot `index`. The new pins are there, but
      on no net; every run goes on as before. */
  method PadMemoryOutputPort(g: Netlist, n: nat, j: nat, index: nat, target: nat, ghost d: nat)
    requires g.Valid() && n < |g.cells| && Padding(g.cells[n], d) && j < |g.cells[n].outPorts|
    requires index + g.cells[n].outPorts[j] == if g.cells[n].kind.DpMemory? && j == 0 then g.cells[n].outPorts[0]
      else |g.cells[n].outs|
    requires AllConnected(g.cells[n].outs[index + g.cells[n].outPorts[j]..])
    modifies g
    ensures g.Valid() && RunEquivalent(old(g.Meaning()), g.Meaning()) && OtherNodes(old(g.nodes), g.nodes, n, n)
    ensures n < |g.cells| && Padding(g.cells[n], d) && SameDepth(old(g.cells[n]), g.cells[n])
    ensures g.cells == old(g.cells)[n := OutFilled(old(g.cells[n]), j, index + old(g.cells[n].outPorts[j]), target)]
    ensures forall i :: index + old(g.cells[n].outPorts[j]) <= i < index + target ==>
      n < |g.nodes| && i < |g.nodes[n].outPins| && g.nodes[n].outPins[i].Some?
  {
    hide Padding, RunEquivalent;
    ghost var c, a := g.cells[n], g.Meaning();
    PaddingOuts(c, d);
    FillOutputPort(g, n, j, index, target, c);
    OutFilledEquivalent(a, g.Meaning(), n, j, index + c.outPorts[j], target, d);
  }

  method FillOutputPort(g: Netlist, n: nat, j: nat, index: nat, target: nat, ghost c: Cell)
    requires g.Valid() && n < |g.cells| && c == g.cells[n] && j < |c.outPorts|
    requires index + c.outPorts[j] <= |c.outs| && AllConnected(c.outs[index + c.outPorts[j]..])
    modifies g
    ensures g.Valid() && |g.nets| == |old(g.nets)| && OtherNodes(old(g.nodes), g.nodes, n, n)
    ensures g.cells == old(g.cells)[n := OutFilled(c, j, index + c.outPorts[j], target)]
    ensures forall i :: index + c.outPorts[j] <= i < index + target ==>
      n < |g.nodes| && i < |g.nodes[n].outPins| && g.nodes[n].outPins[i].Some?
  {
    assert NodeOk(g.nodes[n], g.pins, n, g.cells[n]);
    var size := g.nodes[n].outPorts[j];
    if target > size {
      var diff := target - size;
      g.AllocateMoreOutputs(n, diff);
      ShiftOutputsUp(g, n, index + size, diff, c.outs);
      FillWithLoosePins(g, n, index + size, diff, c.outs);
      g.SetOutputPortSize(n, j, target);
    }
  }

  // ----- one RAM -----

  /** A RAM whose data ports have `ins` pins and whose output ports have `outs`. */
  ghost predicate Filled(c: Cell, ins: nat, outs: nat) {
    && (forall k :: 0 <= k < |c.inPorts| && IsData(c.kind, c.inPorts[k].role) ==> c.inPorts[k].width == ins)
    && (forall j :: 0 <= j < |c.outPorts| ==> c.outPorts[j] == outs)
  }

  function Max(a: nat, b: nat): nat { if a < b then b else a }

  /** One node changed, not its address pins, and every run goes on as before. */
  ghost predicate NodeRefilled(a: NL, b: NL, n: nat) {
    && n < |a.cells| == |b.cells| && b.cells == a.cells[n := b.cells[n]] && RunEquivalent(a, b)
    && SameDepth(a.cells[n], b.cells[n])
  }

  lemma {:induction false} RefilledTwice(a: NL, b: NL, c: NL, n: nat)
    requires NodeRefilled(a, b, n) && NodeRefilled(b, c, n)
    ensures NodeRefilled(a, c, n)
  {
    RunEquivalentTransitive(a, b, c);
    hide RunEquivalent;
  }

  lemma {:induction false} InFilledFields(c: Cell, role: Role, target: nat, pad: nat)
    requires HasRole(c, role) && Offset(c.inPorts, RolePort(c, role)) + c.inPorts[RolePort(c, role)].width <= |c.ins|
    ensures var s, k := InFilled(c, role, target, pad), RolePort(c, role);
      && s.kind == c.kind && s.outs == c.outs && s.outPorts == c.outPorts
      && s.inPorts == c.inPorts[k := c.inPorts[k].(width := Max(c.inPorts[k].width, target))]
  {
  }

  lemma {:induction false} OutFilledFields(c: Cell, j: nat, at: nat, target: nat)
    requires j < |c.outPorts| && at <= |c.outs|
    ensures var s := OutFilled(c, j, at, target);
      && s.kind == c.kind && s.inPorts == c.inPorts && |s.outs| == |c.outs| + Max(c.outPorts[j], target) - c.outPorts[j]
      && s.outPorts == c.outPorts[j := Max(c.outPorts[j], target)]
      && (at == |c.outs| ==> s.outs[..at] == c.outs)
  {
  }

  /** The only data port of a single-port RAM, and the two of a dual-port RAM. */
  lemma {:induction false} DataPorts(c: Cell, d: nat, k: nat)
    requires Ram(c, d) && k < |c.inPorts| && IsData(c.kind, c.inPorts[k].role)
    ensures c.kind.SpMemory? ==> k == RolePort(c, Data)
    ensures c.kind.DpMemory? ==> k == RolePort(c, Data1) || k == RolePort(c, Data2)
  {
    FindPortIs(c.inPorts, c.inPorts[k].role, k);
  }

  lemma {:induction false} SpFilled(c: Cell, s: Cell, d: nat, ins: nat, outs: nat)
    requires Ram(c, d) && c.kind.SpMemory? && s.kind == c.kind && HasRole(c, Data)
    requires s.inPorts == c.inPorts[RolePort(c, Data) := c.inPorts[RolePort(c, Data)].(width := ins)]
    requires s.outPorts == [outs]
    ensures Filled(s, ins, outs)
  {
    forall k | 0 <= k < |s.inPorts| && IsData(s.kind, s.inPorts[k].role) ensures s.inPorts[k].width == ins {
      DataPorts(c, d, k);
    }
  }

  lemma {:induction false} DpFilled(c: Cell, s: Cell, d: nat, ins: nat, outs: nat)
    requires Ram(c, d) && c.kind.DpMemory? && s.kind == c.kind && HasRole(c, Data1) && HasRole(c, Data2)
    requires var k1, k2 := RolePort(c, Data1), RolePort(c, Data2);
      s.inPorts == c.inPorts[k1 := c.inPorts[k1].(width := ins)][k2 := c.inPorts[k2].(width := ins)]
    requires s.outPorts == [outs, outs]
    ensures Filled(s, ins, outs)
  {
    forall k | 0 <= k < |s.inPorts| && IsData(s.kind, s.inPorts[k].role) ensures s.inPorts[k].width == ins {
      DataPorts(c, d, k);
    }
  }

  lemma {:induction false} RamPorts(c: Cell, d: nat)
    requires Ram(c, d)
    ensures c.kind.SpMemory? ==>
      HasRole(c, Data) && c.inPorts[RolePort(c, Data)].width == d && c.outPorts == [d] && |c.outs| == d
    ensures c.kind.DpMemory? ==>
      HasRole(c, Data1) && HasRole(c, Data2) && c.inPorts[RolePort(c, Data1)].width == d
      && c.inPorts[RolePort(c, Data2)].width == d && RolePort(c, Data1) != RolePort(c, Data2)
      && c.outPorts == [d, d] && |c.outs| == 2 * d
    ensures AllConnected(c.outs) && IsMemory(c)
  {
  }

  /** pad_sp_memory_width: `ins` and `outs` are the widths of the ports of the hard block. */
  method PadSpMemoryWidth(g: Netlist, n: nat, ins: nat, outs: nat, ghost d: nat)
    requires g.Valid() && n < |g.cells| && g.cells[n].kind.SpMemory? && Ram(g.cells[n], d)
    modifies g
    ensures g.Valid() && NodeRefilled(old(g.Meaning()), g.Meaning(), n) && OtherNodes(old(g.nodes), g.nodes, n, n)
    ensures Filled(g.cells[n], Max(d, ins), Max(d, outs)) && g.cells[n].kind.SpMemory?
  {
    hide Ram, Padding, RunEquivalent, PaddedIn, PaddedOut, Inserted, FindPort;
    ghost var a, c := g.Meaning(), g.cells[n];
    RamPadding(c, d);
    RamPorts(c, d);
    PadMemoryInputPort(g, n, Data, ins, d);
    ghost var b, c1 := g.Meaning(), g.cells[n];
    InFilledFields(c, Data, ins, g.padNet);
    PadMemoryOutputPort(g, n, 0, 0, outs, d);
    OutFilledFields(c1, 0, c1.outPorts[0], outs);
    SpFilled(c, g.cells[n], d, Max(d, ins), Max(d, outs));
    RefilledTwice(a, b, g.Meaning(), n);
  }

  lemma {:induction false} SamePort(c: Cell, s: Cell, k: nat, w: nat, role: Role)
    requires k < |c.inPorts| && s.inPorts == c.inPorts[k := c.inPorts[k].(width := w)]
    ensures RolePort(s, role) == RolePort(c, role)
  {
    FindPortByRoles(c.inPorts, s.inPorts, role);
  }

  /** The two data ports of a dual-port RAM. */
  method PadDpInputs(g: Netlist, n: nat, ins: nat, ghost d: nat)
    requires g.Valid() && n < |g.cells| && g.cells[n].kind.DpMemory? && Ram(g.cells[n], d)
    modifies g
    ensures g.Valid() && NodeRefilled(old(g.Meaning()), g.Meaning(), n) && OtherNodes(old(g.nodes), g.nodes, n, n)
    ensures Padding(g.cells[n], d)
    ensures var c, s := old(g.cells[n]), g.cells[n];
      var k1, k2 := RolePort(c, Data1), RolePort(c, Data2);
      && k1 < |c.inPorts| && k2 < |c.inPorts| && s.kind == c.kind && s.outs == c.outs && s.outPorts == c.outPorts
      && s.inPorts == c.inPorts[k1 := c.inPorts[k1].(width := Max(d, ins))][k2 := c.inPorts[k2].(width := Max(d, ins))]
  {
    hide Ram, Padding, RunEquivalent, PaddedIn, FindPort;
    ghost var a, c := g.Meaning(), g.cells[n];
    RamPadding(c, d);
    RamPorts(c, d);
    PadMemoryInputPort(g, n, Data1, ins, d);
    ghost var b, c1 := g.Meaning(), g.cells[n];
    InFilledFields(c, Data1, ins, g.padNet);
    SamePort(c, c1, RolePort(c, Data1), Max(d, ins), Data2);
    PadMemoryInputPort(g, n, Data2, ins, d);
    InFilledFields(c1, Data2, ins, g.padNet);
    RefilledTwice(a, b, g.Meaning(), n);
  }

  /** pad_dp_memory_width: first the two data ports, then out1, behind which out2 moves up, then out2. */
  method PadDpMemoryWidth(g: Netlist, n: nat, ins: nat, outs: nat, ghost d: nat)
    requires g.Valid() && n < |g.cells| && g.cells[n].kind.DpMemory? && Ram(g.cells[n], d)
    modifies g
    ensures g.Valid() && NodeRefilled(old(g.Meaning()), g.Meaning(), n) && OtherNodes(old(g.nodes), g.nodes, n, n)
    ensures Filled(g.cells[n], Max(d, ins), Max(d, outs)) && g.cells[n].kind.DpMemory?
  {
    hide Ram, Padding, RunEquivalent, PaddedOut, FindPort;
    ghost var a, c := g.Meaning(), g.cells[n];
    RamPorts(c, d);
    PadDpInputs(g, n, ins, d);
    ghost var b, c1 := g.Meaning(), g.cells[n];
    PadMemoryOutputPort(g, n, 0, 0, outs, d);
    ghost var b2, c2 := g.Meaning(), g.cells[n];
    OutFilledFields(c1, 0, d, outs);
    RefilledTwice(a, b, b2, n);
    assert NodeOk(g.nodes[n], g.pins, n, g.cells[n]);
    PadMemoryOutputPort(g, n, 1, g.nodes[n].outPorts[0], outs, d);
    OutFilledFields(c2, 1, |c2.outs|, outs);
    DpFilled(c, g.cells[n], d, Max(d, ins), Max(d, outs));
    RefilledTwice(a, b2, g.Meaning(), n);
  }
}
