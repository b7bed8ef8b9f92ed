/** split_sp_memory_to_arch_width and split_dp_memory_to_arch_width: a RAM wider than the hard block is cut into as
    many slices as it takes. */
module WidthSplit {
  import opened Wrappers
  import opened Bits
  import opened Semantics
  import opened Runs
  import opened Netlists
  import opened MemoryPorts
  import opened BankSplit
  import opened WidthSlices
  import opened WidthParts

  function Without(c: Cell, at: nat, count: nat): Cell
    requires at + count <= |c.ins|
  {
    c.(ins := Cleared(c.ins, at, count))
  }

  function WithMore(c: Cell, port: nat, pins: seq<Option<nat>>): Cell
    requires port < |c.inPorts|
  {
    c.(ins := c.ins + pins, inPorts := c.inPorts[port := c.inPorts[port].(width := c.inPorts[port].width + |pins|)])
  }

  function WithoutOuts(c: Cell, at: nat, count: nat): Cell
    requires at + count <= |c.outs|
  {
    c.(outs := Cleared(c.outs, at, count))
  }

  function WithMoreOuts(c: Cell, port: nat, pins: seq<Option<nat>>): Cell
    requires port < |c.outPorts|
  {
    c.(outs := c.outs + pins, outPorts := c.outPorts[port := c.outPorts[port] + |pins|])
  }

  lemma {:induction false} TakenSlot(c: Cell, at: nat, k: nat)
    requires at + k < |c.ins|
    ensures Without(c, at, k).(ins := Without(c, at, k).ins[at + k := None]) == Without(c, at, k + 1)
    ensures Without(c, at, k).ins[at + k] == c.ins[at + k]
  {
    assert Cleared(c.ins, at, k)[at + k := None] == Cleared(c.ins, at, k + 1);
  }

  lemma {:induction false} GivenSlot(c: Cell, port: nat, pins: seq<Option<nat>>, k: nat)
    requires port < |c.inPorts| && k < |pins|
    ensures WithLast(WithMore(c, port, pins[..k]), port, pins[k]) == WithMore(c, port, pins[..k + 1])
  {
    var d := WithLast(WithMore(c, port, pins[..k]), port, pins[k]);
    assert d.ins == c.ins + pins[..k + 1];
    assert d.inPorts == WithMore(c, port, pins[..k + 1]).inPorts;
  }

  lemma {:induction false} TakenOut(c: Cell, at: nat, k: nat)
    requires at + k < |c.outs|
    ensures WithoutOuts(c, at, k).(outs := WithoutOuts(c, at, k).outs[at + k := None]) == WithoutOuts(c, at, k + 1)
    ensures WithoutOuts(c, at, k).outs[at + k] == c.outs[at + k]
  {
    assert Cleared(c.outs, at, k)[at + k := None] == Cleared(c.outs, at, k + 1);
  }

  lemma {:induction false} GivenOut(c: Cell, port: nat, pins: seq<Option<nat>>, k: nat)
    requires port < |c.outPorts| && k < |pins|
    ensures WithLastOut(WithMoreOuts(c, port, pins[..k]), port, pins[k]) == WithMoreOuts(c, port, pins[..k + 1])
  {
    var d := WithLastOut(WithMoreOuts(c, port, pins[..k]), port, pins[k]);
    assert d.outs == c.outs + pins[..k + 1];
    assert d.outPorts == WithMoreOuts(c, port, pins[..k + 1]).outPorts;
  }

  function Both(cells: seq<Cell>, n: nat, c: Cell, m: nat, d: Cell): seq<Cell>
    requires n < |cells| && m < |cells|
  {
    cells[n := c][m := d]
  }

  function WithLast(c: Cell, port: nat, e: Option<nat>): Cell
    requires port < |c.inPorts|
  {
    var d := GrownIn(c, port);
    d.(ins := c.ins + [e])
  }

  function WithLastOut(c: Cell, port: nat, e: Option<nat>): Cell
    requires port < |c.outPorts|
  {
    var d := GrownOut(c, port);
    d.(outs := c.outs + [e])
  }

  lemma {:induction false} LastSlot(c: Cell, port: nat, e: Option<nat>)
    requires port < |c.inPorts|
    ensures var d := GrownIn(c, port);
      |d.ins| >= 1 && d.(ins := d.ins[|d.ins| - 1 := e]) == WithLast(c, port, e)
  {
    var d := GrownIn(c, port);
    assert d.ins[|d.ins| - 1 := e] == c.ins + [e];
  }

  lemma {:induction false} LastOut(c: Cell, port: nat, e: Option<nat>)
    requires port < |c.outPorts|
    ensures var d := GrownOut(c, port);
      |d.outs| >= 1 && d.(outs := d.outs[|d.outs| - 1 := e]) == WithLastOut(c, port, e)
  {
    var d := GrownOut(c, port);
    assert d.outs[|d.outs| - 1 := e] == c.outs + [e];
  }

  /** The pin in slot `i` of node `n` moves to a new slot at the end of port `port` of node `m`. */
  method MoveInput(g: Netlist, n: nat, i: nat, m: nat, port: nat, ghost open: set<nat>)
    requires g.Valid() && g.BoundBut(open) && n !in open && m !in open && n != m && m < |g.cells|
    requires HasIn(g.cells, n, i) && g.cells[n].ins[i].Some? && port < |g.cells[m].inPorts|
    modifies g
    ensures g.Valid() && g.BoundBut(open) && |g.nets| == |old(g.nets)| && (old(g.tidy) ==> g.tidy)
    ensures g.cells == Both(old(g.cells), n, old(g.cells[n]).(ins := old(g.cells[n].ins)[i := None]),
                            m, WithLast(old(g.cells[m]), port, old(g.cells[n].ins[i])))
  {
    hide Netlist.Valid, NodeBound;
    ghost var nodes1, cells1 := g.nodes, g.cells;
    LastSlot(g.cells[m], port, g.cells[n].ins[i]);
    g.GrowInputPort(m, port);
    g.EmptySlots(m);
    g.RemapInput(n, i, m, |g.nodes[m].inPins| - 1);
    StillBound(nodes1, cells1, g.nodes, g.cells, open, n, m);
  }

  /** A copy of the pin goes there. */
  method CopyToEnd(g: Netlist, n: nat, i: nat, m: nat, port: nat, ghost open: set<nat>)
    requires g.Valid() && g.BoundBut(open) && n !in open && m !in open && n != m && m < |g.cells|
    requires HasIn(g.cells, n, i) && g.cells[n].ins[i].Some? && port < |g.cells[m].inPorts|
    modifies g
    ensures g.Valid() && g.BoundBut(open) && |g.nets| == |old(g.nets)| && (old(g.tidy) ==> g.tidy)
    ensures g.cells == old(g.cells)[m := WithLast(old(g.cells[m]), port, old(g.cells[n].ins[i]))]
  {
    hide Netlist.Valid, NodeBound;
    ghost var nodes1, cells1 := g.nodes, g.cells;
    LastSlot(g.cells[m], port, g.cells[n].ins[i]);
    g.GrowInputPort(m, port);
    g.EmptySlots(m);
    g.CopyInput(n, i, m, |g.nodes[m].inPins| - 1);
    StillBound(nodes1, cells1, g.nodes, g.cells, open, m, m);
  }

  /** The same for an output pin. */
  method MoveOutput(g: Netlist, n: nat, i: nat, m: nat, port: nat, ghost open: set<nat>)
    requires g.Valid() && g.BoundBut(open) && n !in open && m !in open && n != m && m < |g.cells|
    requires HasOut(g.cells, n, i) && g.cells[n].outs[i].Some? && port < |g.cells[m].outPorts|
    modifies g
    ensures g.Valid() && g.BoundBut(open) && |g.nets| == |old(g.nets)| && (old(g.tidy) ==> g.tidy)
    ensures g.cells == Both(old(g.cells), n, old(g.cells[n]).(outs := old(g.cells[n].outs)[i := None]),
                            m, WithLastOut(old(g.cells[m]), port, old(g.cells[n].outs[i])))
  {
    hide Netlist.Valid, NodeBound;
    ghost var nodes1, cells1 := g.nodes, g.cells;
    LastOut(g.cells[m], port, g.cells[n].outs[i]);
    g.GrowOutputPort(m, port);
    g.EmptySlots(m);
    g.RemapOutput(n, i, m, |g.nodes[m].outPins| - 1);
    StillBound(nodes1, cells1, g.nodes, g.cells, open, n, m);
  }

  /** `count` pins of node `n`, from slot `at` on, move to the end of port `port` of node `m`. */
  method MoveInputs(g: Netlist, n: nat, at: nat, m: nat, port: nat, count: nat, ghost open: set<nat>)
    requires g.Valid() && g.BoundBut(open) && n !in open && m !in open && n != m && n < |g.cells| && m < |g.cells|
    requires port < |g.cells[m].inPorts|
    requires at + count <= |g.cells[n].ins| && AllConnected(g.cells[n].ins[at..at + count])
    modifies g
    ensures g.Valid() && g.BoundBut(open) && |g.nets| == |old(g.nets)| && (old(g.tidy) ==> g.tidy)
    ensures g.cells == Both(old(g.cells), n, Without(old(g.cells[n]), at, count),
                            m, WithMore(old(g.cells[m]), port, old(g.cells[n].ins)[at..at + count]))
  {
    hide Netlist.Valid, Netlist.BoundBut, Cleared, WithLast, GrownIn;
    ghost var before, c, d, pins := g.cells, g.cells[n], g.cells[m], g.cells[n].ins[at..at + count];
    assert Cleared(c.ins, at, 0) == c.ins && d.ins + pins[..0] == d.ins
      && d.inPorts == WithMore(d, port, pins[..0]).inPorts;
    assert before == Both(before, n, Without(c, at, 0), m, WithMore(d, port, pins[..0]));
    for k := 0 to count
      invariant g.Valid() && g.BoundBut(open) && |g.nets| == |old(g.nets)| && (old(g.tidy) ==> g.tidy)
      invariant g.cells == Both(before, n, Without(c, at, k), m, WithMore(d, port, pins[..k]))
    {
      TakenSlot(c, at, k);
      GivenSlot(d, port, pins, k);
      assert pins[k].Some?;
      MoveInput(g, n, at + k, m, port, open);
      assert g.cells == Both(before, n, Without(c, at, k + 1), m, WithMore(d, port, pins[..k + 1]));
    }
    assert pins[..count] == pins;
  }

  /** The same with copies of the pins. */
  method CopyInputs(g: Netlist, n: nat, at: nat, m: nat, port: nat, count: nat, ghost open: set<nat>)
    requires g.Valid() && g.BoundBut(open) && n !in open && m !in open && n != m && n < |g.cells| && m < |g.cells|
    requires port < |g.cells[m].inPorts|
    requires at + count <= |g.cells[n].ins| && AllConnected(g.cells[n].ins[at..at + count])
    modifies g
    ensures g.Valid() && g.BoundBut(open) && |g.nets| == |old(g.nets)| && (old(g.tidy) ==> g.tidy)
    ensures g.cells == old(g.cells)[m := WithMore(old(g.cells[m]), port, old(g.cells[n].ins)[at..at + count])]
  {
    ghost var before, c, d, pins := g.cells, g.cells[n], g.cells[m], g.cells[n].ins[at..at + count];
    assert d.ins + pins[..0] == d.ins && d.inPorts == WithMore(d, port, pins[..0]).inPorts;
    for k := 0 to count
      invariant g.Valid() && g.BoundBut(open) && |g.nets| == |old(g.nets)| && (old(g.tidy) ==> g.tidy)
      invariant g.cells == before[m := WithMore(d, port, pins[..k])]
    {
      GivenSlot(d, port, pins, k);
      assert pins[k] == c.ins[at + k] && pins[k].Some?;
      CopyToEnd(g, n, at + k, m, port, open);
      assert g.cells == before[m := WithMore(d, port, pins[..k + 1])];
    }
    assert pins[..count] == pins;
  }

  method MoveOutputs(g: Netlist, n: nat, at: nat, m: nat, port: nat, count: nat, ghost open: set<nat>)
    requires g.Valid() && g.BoundBut(open) && n !in open && m !in open && n != m && n < |g.cells| && m < |g.cells|
    requires port < |g.cells[m].outPorts|
    requires at + count <= |g.cells[n].outs| && AllConnected(g.cells[n].outs[at..at + count])
    modifies g
    ensures g.Valid() && g.BoundBut(open) && |g.nets| == |old(g.nets)| && (old(g.tidy) ==> g.tidy)
    ensures g.cells == Both(old(g.cells), n, WithoutOuts(old(g.cells[n]), at, count),
                            m, WithMoreOuts(old(g.cells[m]), port, old(g.cells[n].outs)[at..at + count]))
  {
    hide Netlist.Valid, Netlist.BoundBut, Cleared, WithLastOut, GrownOut;
    ghost var before, c, d, pins := g.cells, g.cells[n], g.cells[m], g.cells[n].outs[at..at + count];
    assert Cleared(c.outs, at, 0) == c.outs && d.outs + pins[..0] == d.outs
      && d.outPorts == WithMoreOuts(d, port, pins[..0]).outPorts;
    assert before == Both(before, n, WithoutOuts(c, at, 0), m, WithMoreOuts(d, port, pins[..0]));
    for k := 0 to count
      invariant g.Valid() && g.BoundBut(open) && |g.nets| == |old(g.nets)| && (old(g.tidy) ==> g.tidy)
      invariant g.cells == Both(before, n, WithoutOuts(c, at, k), m, WithMoreOuts(d, port, pins[..k]))
    {
      TakenOut(c, at, k);
      GivenOut(d, port, pins, k);
      assert pins[k].Some?;
      MoveOutput(g, n, at + k, m, port, open);
      assert g.cells == Both(before, n, WithoutOuts(c, at, k + 1), m, WithMoreOuts(d, port, pins[..k + 1]));
    }
    assert pins[..count] == pins;
  }

  // ----- filling a slice -----

  /** How many pins of each port are gone while the slice takes its share of the first `j` ports. */
  function GoneBy(kind: Kind, ports: seq<Port>, lo: nat, take: nat, last: bool, j: nat): (r: seq<nat>)
    ensures |r| == |ports|
  {
    seq(|ports|, (p: nat) requires p < |ports| => GoneOf(kind, ports[p], if p < j then lo + take else lo, last
      && p < j))
  }

  function GoneOf(kind: Kind, port: Port, upto: nat, last: bool): nat {
    if IsData(kind, port.role) then upto else if last then port.width else 0
  }

  /** How many are gone between two slices. */
  function Taken(kind: Kind, ports: seq<Port>, upto: nat, last: bool): (r: seq<nat>)
    ensures |r| == |ports| && forall p :: 0 <= p < |r| ==> r[p] == GoneOf(kind, ports[p], upto, last)
  {
    seq(|ports|, (p: nat) requires p < |ports| => GoneOf(kind, ports[p], upto, last))
  }

  lemma {:induction false} GoneByEnds(kind: Kind, ports: seq<Port>, lo: nat, take: nat, last: bool)
    ensures GoneBy(kind, ports, lo, take, last, 0) == Taken(kind, ports, lo, false)
    ensures GoneBy(kind, ports, lo, take, last, |ports|) == Taken(kind, ports, lo + take, last)
  {
  }

  lemma {:induction false} GoneByStep(kind: Kind, ports: seq<Port>, lo: nat, take: nat, last: bool, j: nat)
    requires j < |ports|
    ensures GoneBy(kind, ports, lo, take, last, j)[j] == GoneOf(kind, ports[j], lo, false)
    ensures GoneBy(kind, ports, lo, take, last, j)[j := GoneOf(kind, ports[j], lo + take, last)]
      == GoneBy(kind, ports, lo, take, last, j + 1)
  {
  }

  lemma {:induction false} PartPortsStep(kind: Kind, ports: seq<Port>, take: nat, j: nat)
    requires j < |ports|
    ensures PartPorts(kind, ports, take, j)[j := Port(ports[j].role, PartPort(kind, ports[j], take, true).width)]
      == PartPorts(kind, ports, take, j + 1)
    ensures PartPorts(kind, ports, take, j)[j] == Port(ports[j].role, 0)
  {
    assert PartPort(kind, ports[j], take, true).role == ports[j].role;
  }

  lemma {:induction false} PartOutsStep(outPorts: seq<nat>, take: nat, j: nat)
    requires j < |outPorts|
    ensures PartOuts(outPorts, take, j)[j := PartOuts(outPorts, take, j)[j] + take] == PartOuts(outPorts, take, j + 1)
  {
  }

  /** The state of the memory and of its slice after `j` input ports. */
  ghost predicate Filling(c: Cell, old0: seq<Cell>, cells: seq<Cell>, n: nat, m: nat, lo: nat, take: nat, last: bool,
                          j: nat)
    requires j <= |c.inPorts|
  {
    && n < |old0| && m < |old0| && |cells| == |old0|
    && cells == Both(old0, n, old0[n].(ins := cells[n].ins), m,
                     old0[m].(ins := Parts(c.kind, c.inPorts, c.ins, lo, take, j),
                       inPorts := PartPorts(c.kind, c.inPorts, take, j)))
    && Gone(c.inPorts, c.ins, cells[n].ins, GoneBy(c.kind, c.inPorts, lo, take, last, j))
  }

  ghost predicate FillingOuts(c: Cell, old0: seq<Cell>, cells: seq<Cell>, n: nat, m: nat, lo: nat, take: nat, j: nat)
    requires j <= |c.outPorts|
  {
    && n < |old0| && m < |old0| && |cells| == |old0|
    && cells == Both(old0, n, old0[n].(outs := cells[n].outs), m,
                     old0[m].(outs := Parts(SpMemory, OutsAsPorts(c.outPorts), c.outs, lo, take, j),
                       outPorts := PartOuts(c.outPorts, take, j)))
    && Gone(OutsAsPorts(c.outPorts), c.outs, cells[n].outs,
      GoneBy(SpMemory, OutsAsPorts(c.outPorts), lo, take, false, j))
  }

  /** The pins the slice takes from port `j` are still there; without them one more port is done. */
  lemma {:induction false} PortReady(kind: Kind, ports: seq<Port>, s0: seq<Option<nat>>, s: seq<Option<nat>>, lo: nat,
                                     take: nat, last: bool,
                                     j: nat, at: nat, count: nat)
    requires Reach(kind, ports, s0, lo + take) && j < |ports|
    requires Gone(ports, s0, s, GoneBy(kind, ports, lo, take, last, j))
    requires at == Offset(ports, j) + GoneOf(kind, ports[j], lo, false)
    requires count == PartPort(kind, ports[j], take, true).width
    ensures at + count <= |s| && s[at..at + count] == Part(kind, ports, s0, lo, take, j)
    ensures IsData(kind, ports[j].role) || last ==>
      Gone(ports, s0, Cleared(s, at, count), GoneBy(kind, ports, lo, take, last, j + 1))
    ensures !IsData(kind, ports[j].role) && !last ==> Gone(ports, s0, s, GoneBy(kind, ports, lo, take, last, j + 1))
  {
    hide Nones, PortOf;
    var gone := GoneBy(kind, ports, lo, take, last, j);
    PartSize(kind, ports, s0, lo, take, j);
    GoneByStep(kind, ports, lo, take, last, j);
    GoneStep(ports, s0, s, gone, j, count);
    assert IsData(kind, ports[j].role) || last ==> gone[j] + count == GoneOf(kind, ports[j], lo + take, last);
    assert !IsData(kind, ports[j].role) && !last ==> gone[j := gone[j]] == gone;
    hide Gone, Reach, Offset, GoneBy, Part, Cleared;
  }

  lemma {:induction false} PortMoved(c: Cell, old0: seq<Cell>, cells: seq<Cell>, cells': seq<Cell>, n: nat, m: nat,
                                     lo: nat, take: nat, last: bool,
                                     j: nat, at: nat, count: nat)
    requires n != m && j < |c.inPorts| && Filling(c, old0, cells, n, m, lo, take, last, j)
    requires at + count <= |cells[n].ins| && cells[n].ins[at..at + count] == Part(c.kind, c.inPorts, c.ins, lo, take, j)
    requires count == PartPort(c.kind, c.inPorts[j], take, true).width
    requires Gone(c.inPorts, c.ins, Cleared(cells[n].ins, at, count), GoneBy(c.kind, c.inPorts, lo, take, last, j + 1))
    requires cells' == Both(cells, n, Without(cells[n], at, count), m,
      WithMore(cells[m], j, cells[n].ins[at..at + count]))
    ensures Filling(c, old0, cells', n, m, lo, take, last, j + 1)
  {
    hide Gone, PartPorts, GoneBy, Part, Cleared;
    PartPortsStep(c.kind, c.inPorts, take, j);
    assert cells'[m].inPorts == PartPorts(c.kind, c.inPorts, take, j + 1);
    assert cells'[m].ins == Parts(c.kind, c.inPorts, c.ins, lo, take, j + 1);
  }

  lemma {:induction false} PortCopied(c: Cell, old0: seq<Cell>, cells: seq<Cell>, cells': seq<Cell>, n: nat, m: nat,
                                      lo: nat, take: nat, last: bool,
                                      j: nat, at: nat, count: nat)
    requires n != m && j < |c.inPorts| && Filling(c, old0, cells, n, m, lo, take, last, j)
    requires at + count <= |cells[n].ins| && cells[n].ins[at..at + count] == Part(c.kind, c.inPorts, c.ins, lo, take, j)
    requires count == PartPort(c.kind, c.inPorts[j], take, true).width
    requires Gone(c.inPorts, c.ins, cells[n].ins, GoneBy(c.kind, c.inPorts, lo, take, last, j + 1))
    requires j < |cells[m].inPorts| && cells' == cells[m := WithMore(cells[m], j, cells[n].ins[at..at + count])]
    ensures Filling(c, old0, cells', n, m, lo, take, last, j + 1)
  {
    hide Gone, PartPorts, GoneBy, Part;
    PartPortsStep(c.kind, c.inPorts, take, j);
    assert cells'[m].inPorts == PartPorts(c.kind, c.inPorts, take, j + 1);
    assert cells'[m].ins == Parts(c.kind, c.inPorts, c.ins, lo, take, j + 1);
  }

  /** One input port of the slice: its share of a data port is moved, another port is copied, or moved to the last
      slice. */
  method FillPort(g: Netlist, n: nat, m: nat, ghost c: Cell, ghost old0: seq<Cell>, port: Port, at: nat, lo: nat,
                  take: nat, last: bool, j: nat, ghost open: set<nat>)
    requires g.Valid() && g.BoundBut(open) && n !in open && m !in open && n != m && j < |c.inPorts|
    requires port == c.inPorts[j] && at == Offset(c.inPorts, j)
    requires Reach(c.kind, c.inPorts, c.ins, lo + take) && AllConnected(c.ins)
    requires Filling(c, old0, g.cells, n, m, lo, take, last, j) && g.cells[n].kind == c.kind
    modifies g
    ensures g.Valid() && g.BoundBut(open) && |g.nets| == |old(g.nets)| && (old(g.tidy) ==> g.tidy)
    ensures Filling(c, old0, g.cells, n, m, lo, take, last, j + 1) && n < |g.cells| && g.cells[n].kind == c.kind
  {
    assert NodeOk(g.nodes[n], g.pins, n, g.cells[n]);
    var kind := g.nodes[n].kind;
    var data := IsData(kind, port.role);
    var from := if data then at + lo else at;
    var count := if data then take else port.width;
    ghost var before := g.cells;
    PortReady(c.kind, c.inPorts, c.ins, g.cells[n].ins, lo, take, last, j, from, count);
    PartConnected(c.kind, c.inPorts, c.ins, lo, take, j);
    if data || last {
      MoveInputs(g, n, from, m, j, count, open);
      PortMoved(c, old0, before, g.cells, n, m, lo, take, last, j, from, count);
    } else {
      CopyInputs(g, n, from, m, j, count, open);
      PortCopied(c, old0, before, g.cells, n, m, lo, take, last, j, from, count);
    }
  }

  method FillInputs(g: Netlist, n: nat, m: nat, ports: seq<Port>, ghost c: Cell, lo: nat, take: nat, last: bool,
                    ghost open: set<nat>)
    requires g.Valid() && g.BoundBut(open) && n !in open && m !in open && n != m && n < |g.cells|
    requires ports == c.inPorts && Reach(c.kind, c.inPorts, c.ins, lo + take)
    requires AllConnected(c.ins)
    requires Filling(c, g.cells, g.cells, n, m, lo, take, last, 0) && g.cells[n].kind == c.kind
    modifies g
    ensures g.Valid() && g.BoundBut(open) && |g.nets| == |old(g.nets)| && (old(g.tidy) ==> g.tidy)
    ensures Filling(c, old(g.cells), g.cells, n, m, lo, take, last, |c.inPorts|)
  {
    hide Filling, Reach;
    var at := 0;
    for j := 0 to |ports|
      invariant g.Valid() && g.BoundBut(open) && |g.nets| == |old(g.nets)| && (old(g.tidy) ==> g.tidy)
      invariant Filling(c, old(g.cells), g.cells, n, m, lo, take, last, j) && at == Offset(ports, j)
      invariant n < |g.cells| && g.cells[n].kind == c.kind
    {
      FillPort(g, n, m, c, old(g.cells), ports[j], at, lo, take, last, j, open);
      at := at + ports[j].width;
    }
  }

  lemma {:induction false} OutMoved(c: Cell, old0: seq<Cell>, cells: seq<Cell>, cells': seq<Cell>, n: nat, m: nat,
                                    lo: nat, take: nat, j: nat, at: nat)
    requires n != m && j < |c.outPorts| && FillingOuts(c, old0, cells, n, m, lo, take, j)
    requires at + take <= |cells[n].outs|
    requires cells[n].outs[at..at + take] == Part(SpMemory, OutsAsPorts(c.outPorts), c.outs, lo, take, j)
    requires Gone(OutsAsPorts(c.outPorts), c.outs, Cleared(cells[n].outs, at, take),
      GoneBy(SpMemory, OutsAsPorts(c.outPorts), lo, take, false, j + 1))
    requires cells' == Both(cells, n, WithoutOuts(cells[n], at, take), m,
      WithMoreOuts(cells[m], j, cells[n].outs[at..at + take]))
    ensures FillingOuts(c, old0, cells', n, m, lo, take, j + 1)
  {
    hide Gone, PartOuts, GoneBy, Part, Cleared, OutsAsPorts;
    PartOutsStep(c.outPorts, take, j);
    assert cells'[m].outPorts == PartOuts(c.outPorts, take, j + 1);
    assert cells'[m].outs == Parts(SpMemory, OutsAsPorts(c.outPorts), c.outs, lo, take, j + 1);
  }

  method FillOutputs(g: Netlist, n: nat, m: nat, outPorts: seq<nat>, ghost c: Cell, lo: nat, take: nat,
                     ghost open: set<nat>)
    requires g.Valid() && g.BoundBut(open) && n !in open && m !in open && n != m && outPorts == c.outPorts
    requires Reach(SpMemory, OutsAsPorts(c.outPorts), c.outs, lo + take) && AllConnected(c.outs)
    requires FillingOuts(c, g.cells, g.cells, n, m, lo, take, 0)
    modifies g
    ensures g.Valid() && g.BoundBut(open) && |g.nets| == |old(g.nets)| && (old(g.tidy) ==> g.tidy)
    ensures FillingOuts(c, old(g.cells), g.cells, n, m, lo, take, |c.outPorts|)
  {
    hide Part, Netlist.Valid, Netlist.BoundBut;
    ghost var ports := OutsAsPorts(c.outPorts);
    var at := 0;
    for j := 0 to |outPorts|
      invariant g.Valid() && g.BoundBut(open) && |g.nets| == |old(g.nets)| && (old(g.tidy) ==> g.tidy)
      invariant FillingOuts(c, old(g.cells), g.cells, n, m, lo, take, j) && at == Offset(ports, j)
    {
      ghost var before := g.cells;
      PortReady(SpMemory, ports, c.outs, g.cells[n].outs, lo, take, false, j, at + lo, take);
      PartConnected(SpMemory, ports, c.outs, lo, take, j);
      MoveOutputs(g, n, at + lo, m, j, take, open);
      OutMoved(c, old(g.cells), before, g.cells, n, m, lo, take, j, at + lo);
      at := at + outPorts[j];
    }
  }

  // ----- the slices one after the other -----

  /** What the memory has left once the columns below `upto` went to slices. */
  ghost predicate Left(c: Cell, x: Cell, upto: nat, last: bool) {
    && x == c.(ins := x.ins, outs := x.outs)
    && Gone(c.inPorts, c.ins, x.ins, Taken(c.kind, c.inPorts, upto, last))
    && Gone(OutsAsPorts(c.outPorts), c.outs, x.outs, Taken(SpMemory, OutsAsPorts(c.outPorts), upto, false))
  }

  /** An empty slice, its ports without pins. */
  method NewSlice(g: Netlist, n: nat, ghost c: Cell, ghost take: nat, ghost open: set<nat>) returns (m: nat)
    requires g.Valid() && g.BoundBut(open) && n < |g.cells|
    requires g.cells[n] == c.(ins := g.cells[n].ins, outs := g.cells[n].outs)
    modifies g
    ensures g.Valid() && g.BoundBut(open) && |g.nets| == |old(g.nets)| && (old(g.tidy) ==> g.tidy)
    ensures m == |old(g.cells)|
    ensures g.cells == old(g.cells)
      + [Cell(c.kind, [], [], PartPorts(c.kind, c.inPorts, take, 0), PartOuts(c.outPorts, take, 0))]
  {
    assert NodeOk(g.nodes[n], g.pins, n, g.cells[n]);
    var ports, outPorts := g.nodes[n].inPorts, g.nodes[n].outPorts;
    var empty := seq(|ports|, (p: nat) requires p < |ports| => Port(ports[p].role, 0));
    var none := seq(|outPorts|, (p: nat) => 0);
    assert empty == PartPorts(c.kind, c.inPorts, take, 0) && none == PartOuts(c.outPorts, take, 0);
    assert Nones(0) == [];
    m := g.AllocateNode(g.nodes[n].kind, empty, 0, none, 0);
  }

  lemma {:induction false} RamPins(c: Cell, d: nat)
    requires Ram(c, d)
    ensures AllConnected(c.ins) && AllConnected(c.outs)
  {
  }

  /** One slice: the columns from `lo` to `lo + take`. */
  method CutSlice(g: Netlist, n: nat, ghost c: Cell, ghost d: nat, lo: nat, take: nat, last: bool, ghost open: set<nat>)
    returns (m: nat)
    requires g.Valid() && g.BoundBut(open) && n !in open && n < |g.cells| && Ram(c, d) && lo + take <= d
    requires Left(c, g.cells[n], lo, false)
    modifies g
    ensures g.Valid() && g.BoundBut(open) && |g.nets| == |old(g.nets)| && (old(g.tidy) ==> g.tidy)
    ensures m == |old(g.cells)| == |g.cells| - 1
    ensures g.cells == old(g.cells)[n := g.cells[n]] + [SliceCell(c, lo, take)] && Left(c, g.cells[n], lo + take, last)
  {
    hide Gone, Reach, Ram, Part;
    ghost var ports := OutsAsPorts(c.outPorts);
    RamReach(c, d, lo + take);
    RamPins(c, d);
    m := NewSlice(g, n, c, take, open);
    GoneByEnds(c.kind, c.inPorts, lo, take, last);
    GoneByEnds(SpMemory, ports, lo, take, false);
    assert NodeOk(g.nodes[n], g.pins, n, g.cells[n]);
    assert Filling(c, g.cells, g.cells, n, m, lo, take, last, 0);
    FillInputs(g, n, m, g.nodes[n].inPorts, c, lo, take, last, open);
    assert FillingOuts(c, g.cells, g.cells, n, m, lo, take, 0);
    assert NodeOk(g.nodes[n], g.pins, n, g.cells[n]);
    FillOutputs(g, n, m, g.nodes[n].outPorts, c, lo, take, open);
  }
}
