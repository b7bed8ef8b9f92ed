/** The pin/net/node graph and the wiring primitives every pass is written with.

    Pointers are indices into the three tables. `cells` is the abstraction the passes reason about:
    each node with the nets its pins are attached to. `Valid` ties it to the tables and keeps the
    back pointers (pin to node and slot, pin to net and position) in agreement with them. */
module Netlists {
  import opened Wrappers
  import opened Semantics

  datatype Direction = NoId | In | Out

  datatype Pin = Pin(dir: Direction, net: Option<nat>, netIdx: nat, node: Option<nat>, nodeIdx: nat)

  datatype Node = Node(kind: Kind, inPins: seq<Option<nat>>, outPins: seq<Option<nat>>,
                       inPorts: seq<Port>, outPorts: seq<nat>)

  datatype Net = Net(driver: Option<nat>, fanouts: seq<Option<nat>>)

  function Nones(k: nat): (s: seq<Option<nat>>)
    ensures |s| == k && forall i :: 0 <= i < k ==> s[i] == None
  {
    seq(k, _ => None)
  }

  function SetIn(cells: seq<Cell>, n: nat, i: nat, e: Option<nat>): (r: seq<Cell>)
    requires n < |cells| && i < |cells[n].ins|
  {
    cells[n := cells[n].(ins := cells[n].ins[i := e])]
  }

  function SetOut(cells: seq<Cell>, n: nat, i: nat, e: Option<nat>): (r: seq<Cell>)
    requires n < |cells| && i < |cells[n].outs|
  {
    cells[n := cells[n].(outs := cells[n].outs[i := e])]
  }

  predicate HasIn(cells: seq<Cell>, n: nat, i: nat) {
    n < |cells| && i < |cells[n].ins|
  }

  predicate HasOut(cells: seq<Cell>, n: nat, i: nat) {
    n < |cells| && i < |cells[n].outs|
  }

  /** A slot holds either nothing or a pin that points back at it; `e` is the net it stands for. */
  predicate InSlotOk(s: Option<nat>, pins: seq<Pin>, n: nat, i: nat, e: Option<nat>) {
    match s
    case None => e == None
    case Some(p) => p < |pins| && pins[p].dir == In && pins[p].node == Some(n) && pins[p].nodeIdx == i && pins[p].net == e
  }

  predicate OutSlotOk(s: Option<nat>, pins: seq<Pin>, n: nat, i: nat, e: Option<nat>) {
    match s
    case None => e == None
    case Some(p) => p < |pins| && pins[p].dir == Out && pins[p].node == Some(n) && pins[p].nodeIdx == i && pins[p].net == e
  }

  predicate NodeOk(node: Node, pins: seq<Pin>, n: nat, c: Cell) {
    && c.kind == node.kind && c.inPorts == node.inPorts && c.outPorts == node.outPorts
    && |c.ins| == |node.inPins| && |c.outs| == |node.outPins|
    && (forall i {:trigger node.inPins[i]} :: 0 <= i < |node.inPins| ==> InSlotOk(node.inPins[i], pins, n, i, c.ins[i]))
    && (forall i {:trigger node.outPins[i]} :: 0 <= i < |node.outPins| ==>
      OutSlotOk(node.outPins[i], pins, n, i, c.outs[i]))
  }

  /** A pin with a net is where the net says it is. */
  predicate PinOk(pin: Pin, p: nat, nets: seq<Net>) {
    pin.net.Some? ==>
      && pin.net.value < |nets|
      && pin.dir != NoId
      && (pin.dir == In ==>
            pin.netIdx < |nets[pin.net.value].fanouts| && nets[pin.net.value].fanouts[pin.netIdx] == Some(p))
      && (pin.dir == Out ==> nets[pin.net.value].driver == Some(p))
  }

  predicate NetOk(net: Net, e: nat, pins: seq<Pin>) {
    && (forall k :: 0 <= k < |net.fanouts| && net.fanouts[k].Some? ==>
          var p := net.fanouts[k].value;
          p < |pins| && pins[p].dir == In && pins[p].net == Some(e) && pins[p].netIdx == k)
    && (net.driver.Some? ==>
          var p := net.driver.value;
          p < |pins| && pins[p].dir == Out && pins[p].net == Some(e))
  }

  /** A pin that says it sits in a slot does sit there. */
  predicate Seated(pin: Pin, p: nat, nodes: seq<Node>) {
    pin.node.Some? ==>
      && pin.node.value < |nodes|
      && (pin.dir == In ==>
            pin.nodeIdx < |nodes[pin.node.value].inPins| && nodes[pin.node.value].inPins[pin.nodeIdx] == Some(p))
      && (pin.dir == Out ==>
            pin.nodeIdx < |nodes[pin.node.value].outPins| && nodes[pin.node.value].outPins[pin.nodeIdx] == Some(p))
  }

  predicate AllConnected(s: seq<Option<nat>>) {
    forall i :: 0 <= i < |s| ==> s[i].Some?
  }

  /** `s` while its entry `at` is being shifted out: entries up to `i` have moved down. */
  function Shifted<T>(s: seq<T>, at: nat, i: nat): (r: seq<T>)
    requires at <= i < |s|
    ensures |r| == |s|
    ensures forall k {:trigger r[k]} :: 0 <= k < |s| ==> r[k] == if at <= k < i then s[k + 1] else s[k]
  {
    s[..at] + s[at + 1..i + 1] + s[i..]
  }

  /** A pin of the node whose slot was passed has moved down. */
  function MovedDown(pin: Pin, q: nat, n: nat, slots: seq<Option<nat>>, at: nat, i: nat): Pin {
    if pin.dir == In && pin.node == Some(n) && at < pin.nodeIdx <= i && pin.nodeIdx < |slots|
      && slots[pin.nodeIdx] == Some(q) then
      pin.(nodeIdx := pin.nodeIdx - 1)
    else pin
  }

  lemma {:induction false} MovedStep(pins0: seq<Pin>, pins1: seq<Pin>, pins2: seq<Pin>, n: nat,
                                     slots: seq<Option<nat>>, at: nat, i: nat, q: nat)
    requires |pins1| == |pins0| && at <= i && i + 1 < |slots| && slots[i + 1] == Some(q) && q < |pins0|
    requires forall p {:trigger pins1[p]} :: 0 <= p < |pins1| ==> pins1[p] == MovedDown(pins0[p], p, n, slots, at, i)
    requires pins0[q].dir == In && pins0[q].node == Some(n) && pins0[q].nodeIdx == i + 1
    requires pins2 == pins1[q := pins1[q].(nodeIdx := i)]
    ensures forall p {:trigger pins2[p]} :: 0 <= p < |pins2| ==> pins2[p] == MovedDown(pins0[p], p, n, slots, at, i + 1)
  {
    forall p {:trigger pins2[p]} | 0 <= p < |pins2| ensures pins2[p] == MovedDown(pins0[p], p, n, slots, at, i + 1) {
      assert pins1[p] == MovedDown(pins0[p], p, n, slots, at, i);
    }
  }

  function WithoutPin(c: Cell, at: nat, port: nat): Cell
    requires at < |c.ins| && port < |c.inPorts| && c.inPorts[port].width > 0
  {
    c.(ins := c.ins[..at] + c.ins[at + 1..],
      inPorts := c.inPorts[port := c.inPorts[port].(width := c.inPorts[port].width - 1)])
  }

  /** What is left of a node that was freed. */
  const Freed: Cell := Cell(PadNode, [], [], [], [])

  function GrownIn(c: Cell, port: nat): Cell
    requires port < |c.inPorts|
  {
    c.(ins := c.ins + [None], inPorts := c.inPorts[port := c.inPorts[port].(width := c.inPorts[port].width + 1)])
  }

  function GrownOut(c: Cell, port: nat): Cell
    requires port < |c.outPorts|
  {
    c.(outs := c.outs + [None], outPorts := c.outPorts[port := c.outPorts[port] + 1])
  }

  // ----- what a pass leaves alone -----

  /** The tables when the fence was put up, and the number of nodes then. */
  datatype Fence = Fence(floor: nat, pins: seq<Pin>, nets: seq<Net>)

  predicate SitsBelow(pin: Pin, floor: nat) {
    pin.dir == In && pin.node.Some? && pin.node.value < floor
  }

  /** No input pin has taken a seat on one of the first `floor` nodes, and fan-out lists only grew at their ends. */
  ghost predicate Fenced(f: Fence, count: nat, pins: seq<Pin>, nets: seq<Net>) {
    && f.floor <= count && |f.pins| <= |pins| && |f.nets| <= |nets|
    && (forall q {:trigger pins[q]} :: 0 <= q < |pins| && SitsBelow(pins[q], f.floor) ==>
          q < |f.pins| && SitsBelow(f.pins[q], f.floor) && f.pins[q].node == pins[q].node)
    && (forall e {:trigger nets[e]} :: 0 <= e < |f.nets| ==> f.nets[e].fanouts <= nets[e].fanouts)
  }

  lemma {:induction false} FencePin(f: Fence, count: nat, pins: seq<Pin>, pins': seq<Pin>, nets: seq<Net>, p: nat)
    requires Fenced(f, count, pins, nets) && p < |pins| == |pins'|
    requires forall q {:trigger pins'[q]} :: 0 <= q < |pins| && q != p ==> pins'[q] == pins[q]
    requires SitsBelow(pins'[p], f.floor) ==> SitsBelow(pins[p], f.floor) && pins'[p].node == pins[p].node
    ensures Fenced(f, count, pins', nets)
  {
  }

  /** A pin that takes a seat above the fence. */
  lemma {:induction false} FenceSeat(f: Fence, count: nat, pins: seq<Pin>, pins': seq<Pin>, nets: seq<Net>, p: nat,
    n: nat)
    requires Fenced(f, count, pins, nets) && p < |pins| && f.floor <= n
    requires |pins'| == |pins| && pins' == pins[p := pins'[p]] && pins'[p].node == Some(n)
    ensures Fenced(f, count, pins', nets)
  {
    hide Fenced;
    FencePin(f, count, pins, pins', nets, p);
  }

  lemma {:induction false} FenceNets(f: Fence, count: nat, pins: seq<Pin>, nets: seq<Net>, nets': seq<Net>)
    requires Fenced(f, count, pins, nets) && |nets| <= |nets'|
    requires forall e {:trigger nets'[e]} :: 0 <= e < |nets| ==> nets[e].fanouts <= nets'[e].fanouts
    ensures Fenced(f, count, pins, nets')
  {
  }

  // ----- what changing one pin and one slot does to the tables -----

  /** The pins are on the nets they were on. */
  ghost predicate SameNets(pins: seq<Pin>, pins': seq<Pin>) {
    |pins'| == |pins| && forall q {:trigger pins'[q]} :: 0 <= q < |pins| ==>
      && pins'[q].net == pins[q].net && pins'[q].netIdx == pins[q].netIdx && (pins[q].net.Some? ==>
        pins'[q].dir == pins[q].dir)
  }

  lemma {:induction false} NetsKept(pins: seq<Pin>, pins': seq<Pin>, nets: seq<Net>)
    requires SameNets(pins, pins')
    requires forall q {:trigger pins[q]} :: 0 <= q < |pins| ==> PinOk(pins[q], q, nets)
    requires forall e {:trigger nets[e]} :: 0 <= e < |nets| ==> NetOk(nets[e], e, pins)
    ensures forall q {:trigger pins'[q]} :: 0 <= q < |pins'| ==> PinOk(pins'[q], q, nets)
    ensures forall e {:trigger nets[e]} :: 0 <= e < |nets| ==> NetOk(nets[e], e, pins')
  {
    forall q {:trigger pins'[q]} | 0 <= q < |pins'| ensures PinOk(pins'[q], q, nets) {
      assert PinOk(pins[q], q, nets);
    }
    forall e {:trigger nets[e]} | 0 <= e < |nets| ensures NetOk(nets[e], e, pins') {
      assert NetOk(nets[e], e, pins);
    }
  }

  /** Only pin `p`, which sits on node `n` or nowhere, changes: the other nodes see nothing of it. */
  lemma {:induction false} OtherNodeKept(node: Node, pins: seq<Pin>, pins': seq<Pin>, m: nat, c: Cell, p: nat, n: nat)
    requires NodeOk(node, pins, m, c) && m != n && p < |pins| && (pins[p].node == None || pins[p].node == Some(n))
    requires |pins'| == |pins| && forall q {:trigger pins'[q]} :: 0 <= q < |pins| && q != p ==> pins'[q] == pins[q]
    ensures NodeOk(node, pins', m, c)
  {
  }

  lemma {:induction false} InputSeated(node: Node, pins: seq<Pin>, pins': seq<Pin>, n: nat, c: Cell, p: nat, i: nat)
    requires NodeOk(node, pins, n, c) && p < |pins| && pins[p].node == None && i < |c.ins|
    requires pins' == pins[p := pins[p].(dir := In, node := Some(n), nodeIdx := i)]
    ensures NodeOk(node.(inPins := node.inPins[i := Some(p)]), pins', n, c.(ins := c.ins[i := pins[p].net]))
  {
  }

  lemma {:induction false} OutputSeated(node: Node, pins: seq<Pin>, pins': seq<Pin>, n: nat, c: Cell, p: nat, i: nat)
    requires NodeOk(node, pins, n, c) && p < |pins| && pins[p].node == None && i < |c.outs|
    requires pins' == pins[p := pins[p].(dir := Out, node := Some(n), nodeIdx := i)]
    ensures NodeOk(node.(outPins := node.outPins[i := Some(p)]), pins', n, c.(outs := c.outs[i := pins[p].net]))
  {
  }

  lemma {:induction false} InputVacated(node: Node, pins: seq<Pin>, n: nat, c: Cell, p: nat, i: nat)
    requires NodeOk(node, pins, n, c) && i < |c.ins| && node.inPins[i] == Some(p)
    ensures p < |pins| && pins[p].node == Some(n) && pins[p].dir == In && pins[p].net == c.ins[i]
    ensures NodeOk(node.(inPins := node.inPins[i := None]), pins[p := pins[p].(node := None)], n,
      c.(ins := c.ins[i := None]))
  {
    assert InSlotOk(node.inPins[i], pins, n, i, c.ins[i]);
  }

  lemma {:induction false} OutputVacated(node: Node, pins: seq<Pin>, n: nat, c: Cell, p: nat, i: nat)
    requires NodeOk(node, pins, n, c) && i < |c.outs| && node.outPins[i] == Some(p)
    ensures p < |pins| && pins[p].node == Some(n) && pins[p].dir == Out && pins[p].net == c.outs[i]
    ensures NodeOk(node.(outPins := node.outPins[i := None]), pins[p := pins[p].(node := None)], n,
      c.(outs := c.outs[i := None]))
  {
    assert OutSlotOk(node.outPins[i], pins, n, i, c.outs[i]);
  }

  lemma {:induction false} InputMoved(node: Node, pins: seq<Pin>, n: nat, c: Cell, p: nat, from: nat, to: nat)
    requires NodeOk(node, pins, n, c) && from < |c.ins| && to < |c.ins| && from != to && node.inPins[from] == Some(p)
    ensures p < |pins| && pins[p].node == Some(n)
    ensures NodeOk(node.(inPins := node.inPins[to := Some(p)][from := None]), pins[p := pins[p].(nodeIdx := to)], n,
                   c.(ins := c.ins[to := c.ins[from]][from := None]))
  {
    assert InSlotOk(node.inPins[from], pins, n, from, c.ins[from]);
  }

  lemma {:induction false} OutputMoved(node: Node, pins: seq<Pin>, n: nat, c: Cell, p: nat, from: nat, to: nat)
    requires NodeOk(node, pins, n, c) && from < |c.outs| && to < |c.outs| && from != to && node.outPins[from] == Some(p)
    ensures p < |pins| && pins[p].node == Some(n)
    ensures NodeOk(node.(outPins := node.outPins[to := Some(p)][from := None]), pins[p := pins[p].(nodeIdx := to)], n,
                   c.(outs := c.outs[to := c.outs[from]][from := None]))
  {
    assert OutSlotOk(node.outPins[from], pins, n, from, c.outs[from]);
  }

  lemma {:induction false} OutputDriven(node: Node, pins: seq<Pin>, n: nat, c: Cell, p: nat, i: nat, e: nat)
    requires NodeOk(node, pins, n, c) && i < |c.outs| && node.outPins[i] == Some(p) && p < |pins|
    requires pins[p].nodeIdx == i
    ensures NodeOk(node, pins[p := pins[p].(net := Some(e))], n, c.(outs := c.outs[i := Some(e)]))
  {
  }

  lemma {:induction false} NetReached(pins: seq<Pin>, pins': seq<Pin>, nets: seq<Net>, nets': seq<Net>, p: nat, e: nat)
    requires forall q {:trigger pins[q]} :: 0 <= q < |pins| ==> PinOk(pins[q], q, nets)
    requires forall d {:trigger nets[d]} :: 0 <= d < |nets| ==> NetOk(nets[d], d, pins)
    requires p < |pins| && e < |nets| && pins[p].dir != Out && pins[p].net == None
    requires pins' == pins[p := pins[p].(dir := In, net := Some(e), netIdx := |nets[e].fanouts|)]
    requires nets' == nets[e := nets[e].(fanouts := nets[e].fanouts + [Some(p)])]
    ensures forall q {:trigger pins'[q]} :: 0 <= q < |pins'| ==> PinOk(pins'[q], q, nets')
    ensures forall d {:trigger nets'[d]} :: 0 <= d < |nets'| ==> NetOk(nets'[d], d, pins')
  {
    forall q {:trigger pins'[q]} | 0 <= q < |pins'| ensures PinOk(pins'[q], q, nets') {
      assert PinOk(pins[q], q, nets);
    }
    forall d {:trigger nets'[d]} | 0 <= d < |nets'| ensures NetOk(nets'[d], d, pins') {
      assert NetOk(nets[d], d, pins);
    }
  }

  /** One node and one pin on it, or coming to it, have changed. */
  lemma {:induction false} OneNodeChanged(nodes: seq<Node>, cells: seq<Cell>, pins: seq<Pin>, pins': seq<Pin>, p: nat,
                                          n: nat, node': Node, c': Cell)
    requires |cells| == |nodes| && n < |nodes| && p < |pins| == |pins'|
    requires pins[p].node == None || pins[p].node == Some(n)
    requires forall m {:trigger nodes[m]} :: 0 <= m < |nodes| ==> NodeOk(nodes[m], pins, m, cells[m])
    requires forall q {:trigger pins'[q]} :: 0 <= q < |pins| && q != p ==> pins'[q] == pins[q]
    requires NodeOk(node', pins', n, c')
    ensures forall m {:trigger nodes[n := node'][m]} :: 0 <= m < |nodes| ==>
      NodeOk(nodes[n := node'][m], pins', m, cells[n := c'][m])
  {
    hide NodeOk;
    forall m {:trigger nodes[n := node'][m]} | 0 <= m < |nodes|
      ensures NodeOk(nodes[n := node'][m], pins', m, cells[n := c'][m])
    {
      if m != n { OtherNodeKept(nodes[m], pins, pins', m, cells[m], p, n); }
    }
  }

  lemma {:induction false} LooseNodes(nodes: seq<Node>, cells: seq<Cell>, pins: seq<Pin>, pins': seq<Pin>, p: nat)
    requires |cells| == |nodes| && p < |pins| == |pins'| && pins[p].node == None
    requires forall m {:trigger nodes[m]} :: 0 <= m < |nodes| ==> NodeOk(nodes[m], pins, m, cells[m])
    requires forall q {:trigger pins'[q]} :: 0 <= q < |pins| && q != p ==> pins'[q] == pins[q]
    ensures forall m {:trigger nodes[m]} :: 0 <= m < |nodes| ==> NodeOk(nodes[m], pins', m, cells[m])
  {
    hide NodeOk;
    forall m {:trigger nodes[m]} | 0 <= m < |nodes| ensures NodeOk(nodes[m], pins', m, cells[m]) {
      OtherNodeKept(nodes[m], pins, pins', m, cells[m], p, m + 1);
    }
  }

  lemma {:induction false} LooseSeats(nodes: seq<Node>, pins: seq<Pin>, pins': seq<Pin>, p: nat)
    requires p < |pins| == |pins'| && pins'[p].node == None
    requires forall q {:trigger pins[q]} :: 0 <= q < |pins| ==> Seated(pins[q], q, nodes)
    requires forall q {:trigger pins'[q]} :: 0 <= q < |pins| && q != p ==> pins'[q] == pins[q]
    ensures forall q {:trigger pins'[q]} :: 0 <= q < |pins'| ==> Seated(pins'[q], q, nodes)
  {
  }

  lemma {:induction false} NetDriven(pins: seq<Pin>, pins': seq<Pin>, nets: seq<Net>, nets': seq<Net>, p: nat, e: nat)
    requires forall q {:trigger pins[q]} :: 0 <= q < |pins| ==> PinOk(pins[q], q, nets)
    requires forall d {:trigger nets[d]} :: 0 <= d < |nets| ==> NetOk(nets[d], d, pins)
    requires p < |pins| && e < |nets| && nets[e].driver == None && pins[p].dir == Out && pins[p].net == None
    requires pins' == pins[p := pins[p].(net := Some(e))] && nets' == nets[e := nets[e].(driver := Some(p))]
    ensures forall q {:trigger pins'[q]} :: 0 <= q < |pins'| ==> PinOk(pins'[q], q, nets')
    ensures forall d {:trigger nets'[d]} :: 0 <= d < |nets'| ==> NetOk(nets'[d], d, pins')
  {
    forall q {:trigger pins'[q]} | 0 <= q < |pins'| ensures PinOk(pins'[q], q, nets') {
      assert PinOk(pins[q], q, nets);
    }
    forall d {:trigger nets'[d]} | 0 <= d < |nets'| ensures NetOk(nets'[d], d, pins') {
      assert NetOk(nets[d], d, pins);
    }
  }

  /** After pin `p` got a new seat, or none. */
  lemma {:induction false} SeatsKept(nodes: seq<Node>, nodes': seq<Node>, pins: seq<Pin>, pins': seq<Pin>, n: nat,
                                     p: nat)
    requires forall q {:trigger pins[q]} :: 0 <= q < |pins| ==> Seated(pins[q], q, nodes)
    requires n < |nodes| == |nodes'| && p < |pins| == |pins'| && Seated(pins'[p], p, nodes')
    requires forall m {:trigger nodes'[m]} :: 0 <= m < |nodes| && m != n ==> nodes'[m] == nodes[m]
    requires forall q {:trigger pins'[q]} :: 0 <= q < |pins| && q != p ==> pins'[q] == pins[q]
    requires SlotsKept(nodes[n].inPins, nodes'[n].inPins, p) && SlotsKept(nodes[n].outPins, nodes'[n].outPins, p)
    ensures forall q {:trigger pins'[q]} :: 0 <= q < |pins'| ==> Seated(pins'[q], q, nodes')
  {
    forall q {:trigger pins'[q]} | 0 <= q < |pins'| ensures Seated(pins'[q], q, nodes') {
      if q != p { assert Seated(pins[q], q, nodes); }
    }
  }

  lemma {:induction false} SeatOf(pin: Pin, p: nat, nodes: seq<Node>)
    requires pin.node.Some? ==> pin.node.value < |nodes|
    requires pin.node.Some? && pin.dir == In ==>
      pin.nodeIdx < |nodes[pin.node.value].inPins| && nodes[pin.node.value].inPins[pin.nodeIdx] == Some(p)
    requires pin.node.Some? && pin.dir == Out ==>
      pin.nodeIdx < |nodes[pin.node.value].outPins| && nodes[pin.node.value].outPins[pin.nodeIdx] == Some(p)
    ensures Seated(pin, p, nodes)
  {
  }

  /** A slot on a net holds a pin; the pin's direction is the slot's. */
  lemma {:induction false} SlotPin(node: Node, pins: seq<Pin>, n: nat, c: Cell)
    requires NodeOk(node, pins, n, c)
    ensures |c.ins| == |node.inPins| && |c.outs| == |node.outPins|
    ensures forall i {:trigger node.inPins[i]} :: 0 <= i < |c.ins| && c.ins[i].Some? ==> node.inPins[i].Some?
    ensures forall i {:trigger node.outPins[i]} :: 0 <= i < |c.outs| && c.outs[i].Some? ==> node.outPins[i].Some?
    ensures forall i {:trigger node.inPins[i]} :: 0 <= i < |c.ins| && node.inPins[i].Some? ==>
      node.inPins[i].value < |pins| && pins[node.inPins[i].value].dir == In
        && pins[node.inPins[i].value].node == Some(n)
    ensures forall i {:trigger node.outPins[i]} :: 0 <= i < |c.outs| && node.outPins[i].Some? ==>
      node.outPins[i].value < |pins| && pins[node.outPins[i].value].dir == Out
        && pins[node.outPins[i].value].node == Some(n)
  {
  }

  /** Every pin but `p` is in the slots it was in. */
  predicate SlotsKept(s: seq<Option<nat>>, s': seq<Option<nat>>, p: nat) {
    |s'| == |s| && forall i {:trigger s'[i]} :: 0 <= i < |s| && s[i].Some? && s[i] != Some(p) ==> s'[i] == s[i]
  }

  predicate NodeBound(node: Node, c: Cell) {
    && |c.ins| == |node.inPins| && |c.outs| == |node.outPins|
    && (forall i {:trigger node.inPins[i]} :: 0 <= i < |node.inPins| && node.inPins[i].Some? ==> c.ins[i].Some?)
    && (forall i {:trigger node.outPins[i]} :: 0 <= i < |node.outPins| && node.outPins[i].Some? ==> c.outs[i].Some?)
  }

  lemma {:induction false} SeatedAfterRemoval(before: seq<Node>, after: seq<Node>, pin: Pin, pin': Pin, q: nat, n: nat,
                                              at: nat)
    requires n < |before| == |after| && at < |before[n].inPins| && Seated(pin, q, before)
    requires after[n].outPins == before[n].outPins
    requires after[n].inPins == Shifted(before[n].inPins, at, |before[n].inPins| - 1)[..|before[n].inPins| - 1]
    requires forall m :: 0 <= m < |before| && m != n ==> after[m] == before[m]
    requires pin' == if before[n].inPins[at] == Some(q) then
      MovedDown(pin, q, n, before[n].inPins, at, |before[n].inPins| - 1).(node := None)
                     else MovedDown(pin, q, n, before[n].inPins, at, |before[n].inPins| - 1)
    ensures Seated(pin', q, after)
  {
    if pin.node == Some(n) && pin.dir == In && before[n].inPins[at] != Some(q) {
      var i := pin.nodeIdx;
      assert before[n].inPins[i] == Some(q) && i != at;
      assert i > at ==> after[n].inPins[i - 1] == before[n].inPins[i];
    }
  }

  /** What taking a pin out does to the two tables. */
  ghost predicate Removed(before: seq<Node>, after: seq<Node>, pins: seq<Pin>, pins': seq<Pin>, p: nat, n: nat,
                          at: nat, port: nat) {
    && n < |before| == |after| && at < |before[n].inPins| && before[n].inPins[at] == Some(p) && p < |pins| == |pins'|
    && port < |before[n].inPorts| && before[n].inPorts[port].width > 0
    && after[n] == before[n].(inPins := Shifted(before[n].inPins, at, |before[n].inPins| - 1)[..|before[n].inPins| - 1],
                              inPorts := before[n].inPorts[port := before[n].inPorts[port].(width := before[n].inPorts[port].width - 1)])
    && (forall m :: 0 <= m < |before| && m != n ==> after[m] == before[m])
    && (forall q {:trigger pins'[q]} :: 0 <= q < |pins| ==>
          var pin := MovedDown(pins[q], q, n, before[n].inPins, at, |before[n].inPins| - 1);
          pins'[q] == if q == p then pin.(node := None) else pin)
  }

  lemma {:induction false} TidyAfterRemoval(before: seq<Node>, after: seq<Node>, pins: seq<Pin>, pins': seq<Pin>,
                                            p: nat, n: nat, at: nat, port: nat)
    requires Removed(before, after, pins, pins', p, n, at, port)
    requires forall q {:trigger pins[q]} :: 0 <= q < |pins| ==> Seated(pins[q], q, before)
    ensures forall q {:trigger pins'[q]} :: 0 <= q < |pins'| ==> Seated(pins'[q], q, after)
  {
    forall q {:trigger pins'[q]} | 0 <= q < |pins'|
      ensures Seated(pins'[q], q, after)
    {
      SeatedAfterRemoval(before, after, pins[q], pins'[q], q, n, at);
    }
  }

  lemma {:induction false} PinsAfterRemoval(before: seq<Node>, after: seq<Node>, pins: seq<Pin>, pins': seq<Pin>,
                                            p: nat, n: nat, at: nat, port: nat, nets: seq<Net>, c: Cell)
    requires Removed(before, after, pins, pins', p, n, at, port) && NodeOk(before[n], pins, n, c) && at < |c.ins|
    requires forall q {:trigger pins[q]} :: 0 <= q < |pins| ==> PinOk(pins[q], q, nets)
    ensures forall q {:trigger pins'[q]} :: 0 <= q < |pins'| ==> PinOk(pins'[q], q, nets)
    ensures pins'[p].node == None && pins'[p].dir == In && pins'[p].net == c.ins[at] && pins[p].node == Some(n)
    ensures forall q {:trigger pins'[q]} :: 0 <= q < |pins| && pins[q].node == None ==> pins'[q] == pins[q]
  {
    assert InSlotOk(before[n].inPins[at], pins, n, at, c.ins[at]);
    forall q {:trigger pins'[q]} | 0 <= q < |pins'| ensures PinOk(pins'[q], q, nets) {
      assert PinOk(pins[q], q, nets);
    }
  }

  lemma {:induction false} BoundAfterRemoval(before: seq<Node>, after: seq<Node>, pins: seq<Pin>, pins': seq<Pin>,
                                             p: nat, n: nat, at: nat, port: nat, cells: seq<Cell>, cells': seq<Cell>)
    requires Removed(before, after, pins, pins', p, n, at, port) && |cells| == |before| && at < |cells[n].ins|
    requires port < |cells[n].inPorts| && cells[n].inPorts[port].width > 0
    requires forall m {:trigger before[m]} :: 0 <= m < |before| ==> NodeBound(before[m], cells[m])
    requires cells' == cells[n := WithoutPin(cells[n], at, port)]
    ensures forall m {:trigger after[m]} :: 0 <= m < |after| ==> NodeBound(after[m], cells'[m])
  {
    assert NodeBound(before[n], cells[n]);
    forall m {:trigger after[m]} | 0 <= m < |after| ensures NodeBound(after[m], cells'[m]) {
      assert NodeBound(before[m], cells[m]);
    }
  }

  lemma {:induction false} NodesAfterRemoval(before: seq<Node>, after: seq<Node>, pins: seq<Pin>, pins': seq<Pin>,
                                             p: nat, n: nat, at: nat, port: nat,
                                             cells: seq<Cell>, nets: seq<Net>)
    requires Removed(before, after, pins, pins', p, n, at, port) && |cells| == |before|
    requires forall m {:trigger before[m]} :: 0 <= m < |before| ==> NodeOk(before[m], pins, m, cells[m])
    requires forall e {:trigger nets[e]} :: 0 <= e < |nets| ==> NetOk(nets[e], e, pins)
    ensures at < |cells[n].ins| && port < |cells[n].inPorts| && cells[n].inPorts[port].width > 0
    ensures forall m {:trigger after[m]} :: 0 <= m < |after| ==>
      NodeOk(after[m], pins', m, cells[n := WithoutPin(cells[n], at, port)][m])
    ensures forall e {:trigger nets[e]} :: 0 <= e < |nets| ==> NetOk(nets[e], e, pins')
  {
    assert NodeOk(before[n], pins, n, cells[n]);
    var slots, cells' := before[n].inPins, cells[n := WithoutPin(cells[n], at, port)];
    forall m {:trigger after[m]} | 0 <= m < |after|
      ensures NodeOk(after[m], pins', m, cells'[m])
    {
      assert NodeOk(before[m], pins, m, cells[m]);
      if m == n {
        forall i {:trigger after[n].inPins[i]} | 0 <= i < |slots| - 1
          ensures InSlotOk(after[n].inPins[i], pins', n, i, cells'[n].ins[i])
        {
          assert after[n].inPins[i] == if at <= i then slots[i + 1] else slots[i];
          assert InSlotOk(slots[if at <= i then i + 1 else i], pins, n, if at <= i then i + 1 else i, cells'[n].ins[i]);
        }
      }
    }
    forall e {:trigger nets[e]} | 0 <= e < |nets|
      ensures NetOk(nets[e], e, pins')
    {
      assert NetOk(nets[e], e, pins);
    }
  }

  /** Every seated pin of every node but those in `open` is on a net. */
  ghost predicate AllBound(nodes: seq<Node>, cells: seq<Cell>, open: set<nat>) {
    && |cells| == |nodes| && (forall n {:trigger n in open} :: n in open ==> n < |nodes|)
    && (forall n {:trigger nodes[n]} :: 0 <= n < |nodes| && n !in open ==> NodeBound(nodes[n], cells[n]))
  }

  lemma {:induction false} StillBound(nodes: seq<Node>, cells: seq<Cell>, nodes': seq<Node>, cells': seq<Cell>,
                                      open: set<nat>, n: nat, m: nat)
    requires AllBound(nodes, cells, open) && OtherNodes(nodes, nodes', n, m)
    requires |cells'| == |nodes'| == |cells|
    requires forall k {:trigger cells'[k]} :: 0 <= k < |cells'| && k != n && k != m ==> cells'[k] == cells[k]
    requires n < |nodes'| && m < |nodes'| && (n in open || NodeBound(nodes'[n], cells'[n]))
    requires m in open || NodeBound(nodes'[m], cells'[m])
    ensures AllBound(nodes', cells', open)
  {
    hide NodeBound;
    forall k {:trigger nodes'[k]} | 0 <= k < |nodes'| && k !in open ensures NodeBound(nodes'[k], cells'[k]) {
      if k != n && k != m { assert NodeBound(nodes[k], cells[k]); }
    }
  }

  /** No node but these two has changed. */
  ghost predicate OtherNodes(before: seq<Node>, after: seq<Node>, n: nat, m: nat) {
    && |before| <= |after|
    && forall k {:trigger after[k]} :: 0 <= k < |before| && k != n && k != m ==> after[k] == before[k]
  }

  class Netlist {
    var nodes: seq<Node>
    var pins: seq<Pin>
    var nets: seq<Net>
    const zeroNet: nat
    const oneNet: nat
    const padNet: nat
    ghost var cells: seq<Cell>
    ghost var tidy: bool
    ghost var fence: Fence
    ghost var fenced: bool

    ghost predicate Valid()
      reads this
    {
      && |cells| == |nodes|
      && zeroNet < |nets| && oneNet < |nets| && padNet < |nets|
      && (forall n {:trigger nodes[n]} :: 0 <= n < |nodes| ==> NodeOk(nodes[n], pins, n, cells[n]))
      && (forall p {:trigger pins[p]} :: 0 <= p < |pins| ==> PinOk(pins[p], p, nets))
      && (forall e {:trigger nets[e]} :: 0 <= e < |nets| ==> NetOk(nets[e], e, pins))
      && (tidy ==> Tidy())
      && fence.floor <= |nodes| && (fenced ==> Fenced(fence, |nodes|, pins, nets))
    }

    /** The fence stays where it is and, if `keeps`, stays whole. */
    ghost predicate Fences(f: Fence, whole: bool, keeps: bool)
      reads this
    {
      fence == f && (whole && keeps ==> fenced)
    }

    /** What a pass on one node leaves as it was: tidiness and the fence. */
    ghost predicate Steady(f: Fence, whole: bool, neat: bool)
      reads this
    {
      (neat ==> tidy) && Fences(f, whole, true)
    }

    /** From here on the fence says what happens to the nodes there are now. */
    ghost method PutFence()
      requires Valid()
      modifies this`fence, this`fenced
      ensures Valid() && fenced && fence == Fence(|nodes|, pins, nets)
    {
      fence := Fence(|nodes|, pins, nets);
      fenced := true;
    }

    /** No pin was left behind by a slot that now holds another one; `tidy` records that this is still so. */
    ghost predicate Tidy()
      reads this
    {
      forall p {:trigger pins[p]} :: 0 <= p < |pins| ==> Seated(pins[p], p, nodes)
    }

    /** Every seated pin is on a net. */
    ghost predicate Bound()
      reads this
    {
      && |cells| == |nodes|
      && (forall n {:trigger nodes[n]} :: 0 <= n < |nodes| ==> NodeBound(nodes[n], cells[n]))
    }

    /** Every seated pin of node `n` is on a net. */
    ghost predicate Tied(n: nat)
      reads this
    {
      |cells| == |nodes| && n < |nodes| && NodeBound(nodes[n], cells[n])
    }

    /** The same of all nodes but these. */
    ghost predicate BoundBut(open: set<nat>)
      reads this
    {
      AllBound(nodes, cells, open)
    }

    /** What a pass asks of a netlist and leaves behind. */
    ghost predicate Ready()
      reads this
    {
      Valid() && Bound()
    }

    ghost function Meaning(): NL
      reads this
    {
      NL(cells, |nets|, zeroNet, oneNet, padNet)
    }

    /** `p` sits in no slot. */
    ghost predicate Loose(p: nat)
      reads this
    {
      p < |pins| && pins[p].node == None
    }

    /** Two constant nets and the pad net, and nothing else. */
    constructor ()
      ensures Ready() && tidy
      ensures Meaning() == NL([], 3, 0, 1, 2)
    {
      nodes, pins := [], [];
      nets := [Net(None, []), Net(None, []), Net(None, [])];
      zeroNet, oneNet, padNet := 0, 1, 2;
      cells, tidy, fence, fenced := [], true, Fence(0, [], []), false;
    }

    // ----- allocation -----

    /** allocate_nnode with its ports and pin slots, as the make_..._gate functions set them up. */
    method AllocateNode(kind: Kind, inPorts: seq<Port>, numIns: nat, outPorts: seq<nat>, numOuts: nat) returns (n: nat)
      requires Valid()
      modifies this
      ensures KeepsDrivers(old(nets))
      ensures Valid() && (old(tidy) ==> tidy) && (old(Bound()) ==> Bound())
      ensures n == |old(cells)| && KeepsFree(old(pins))
      ensures cells == old(cells) + [Cell(kind, Nones(numIns), Nones(numOuts), inPorts, outPorts)]
      ensures |nets| == |old(nets)|
      ensures nodes == old(nodes) + [Node(kind, Nones(numIns), Nones(numOuts), inPorts, outPorts)]
      ensures Fences(old(fence), old(fenced), true)
    {
      n := |nodes|;
      nodes := nodes + [Node(kind, Nones(numIns), Nones(numOuts), inPorts, outPorts)];
      cells := cells + [Cell(kind, Nones(numIns), Nones(numOuts), inPorts, outPorts)];
    }

    method AllocatePin() returns (p: nat)
      requires Valid()
      modifies this
      ensures Valid() && (old(tidy) ==> tidy) && (old(Bound()) ==> Bound())
      ensures p == |old(pins)| && pins == old(pins) + [Pin(NoId, None, 0, None, 0)]
      ensures Loose(p) && nodes == old(nodes) && nets == old(nets) && cells == old(cells)
      ensures Fences(old(fence), old(fenced), true)
    {
      p := |pins|;
      pins := pins + [Pin(NoId, None, 0, None, 0)];
    }

    method AllocateNet() returns (e: nat)
      requires Valid()
      modifies this
      ensures Valid() && (old(tidy) ==> tidy) && (old(Bound()) ==> Bound())
      ensures e == |old(nets)| && nets == old(nets) + [Net(None, [])]
      ensures nodes == old(nodes) && pins == old(pins) && cells == old(cells)
      ensures Fences(old(fence), old(fenced), true)
    {
      e := |nets|;
      nets := nets + [Net(None, [])];
    }

    // ----- single attachments -----

    /** add_a_input_pin_to_node_spot_idx */
    method AddInputPinToNode(n: nat, p: nat, i: nat)
      requires Valid() && HasIn(cells, n, i) && Loose(p) && pins[p].dir != Out
      requires pins[p].dir == NoId ==> pins[p].net == None
      modifies this
      ensures Valid() && nets == old(nets)
      ensures cells == SetIn(old(cells), n, i, old(pins[p].net))
      ensures old(tidy) && old(nodes[n].inPins[i]) == None ==> tidy
      ensures old(Bound()) && old(pins[p].net).Some? ==> Bound()
      ensures pins == old(pins)[p := old(pins[p]).(dir := In, node := Some(n), nodeIdx := i)]
      ensures nodes == old(nodes)[n := old(nodes[n]).(inPins := old(nodes[n].inPins)[i := Some(p)])]
      ensures Fences(old(fence), old(fenced), old(fence).floor <= n)
    {
      hide NodeOk, PinOk, NetOk, Seated, InSlotOk, OutSlotOk, Fenced;
      assert NodeOk(nodes[n], pins, n, cells[n]);
      SlotPin(nodes[n], pins, n, cells[n]);
      tidy := tidy && nodes[n].inPins[i] == None;
      nodes := nodes[n := nodes[n].(inPins := nodes[n].inPins[i := Some(p)])];
      pins := pins[p := pins[p].(dir := In, node := Some(n), nodeIdx := i)];
      cells := SetIn(cells, n, i, pins[p].net);
      InputSeated(old(nodes[n]), old(pins), pins, n, old(cells[n]), p, i);
      NetsKept(old(pins), pins, nets);
      OneNodeChanged(old(nodes), old(cells), old(pins), pins, p, n, nodes[n], cells[n]);
      if tidy {
        SeatOf(pins[p], p, nodes);
        SeatsKept(old(nodes), nodes, old(pins), pins, n, p);
      }
      fenced := fenced && fence.floor <= n;
      if fenced { FenceSeat(fence, |nodes|, old(pins), pins, nets, p, n); }
    }

    /** add_a_output_pin_to_node_spot_idx */
    method AddOutputPinToNode(n: nat, p: nat, i: nat)
      requires Valid() && HasOut(cells, n, i) && Loose(p) && pins[p].dir != In
      requires pins[p].dir == NoId ==> pins[p].net == None
      modifies this
      ensures Valid() && nets == old(nets)
      ensures cells == SetOut(old(cells), n, i, old(pins[p].net))
      ensures old(tidy) && old(nodes[n].outPins[i]) == None ==> tidy
      ensures old(Bound()) && old(pins[p].net).Some? ==> Bound()
      ensures pins == old(pins)[p := old(pins[p]).(dir := Out, node := Some(n), nodeIdx := i)]
      ensures nodes == old(nodes)[n := old(nodes[n]).(outPins := old(nodes[n].outPins)[i := Some(p)])]
      ensures Fences(old(fence), old(fenced), true)
    {
      hide NodeOk, PinOk, NetOk, Seated, InSlotOk, OutSlotOk, Fenced;
      assert NodeOk(nodes[n], pins, n, cells[n]);
      SlotPin(nodes[n], pins, n, cells[n]);
      tidy := tidy && nodes[n].outPins[i] == None;
      nodes := nodes[n := nodes[n].(outPins := nodes[n].outPins[i := Some(p)])];
      pins := pins[p := pins[p].(dir := Out, node := Some(n), nodeIdx := i)];
      cells := SetOut(cells, n, i, pins[p].net);
      OutputSeated(old(nodes[n]), old(pins), pins, n, old(cells[n]), p, i);
      NetsKept(old(pins), pins, nets);
      OneNodeChanged(old(nodes), old(cells), old(pins), pins, p, n, nodes[n], cells[n]);
      if tidy {
        SeatOf(pins[p], p, nodes);
        SeatsKept(old(nodes), nodes, old(pins), pins, n, p);
      }
      if fenced { FencePin(fence, |nodes|, old(pins), pins, nets, p); }
    }

    /** add_a_fanout_pin_to_net */
    method AddFanoutPinToNet(e: nat, p: nat)
      requires Valid() && e < |nets| && Loose(p) && pins[p].dir != Out && pins[p].net == None
      modifies this
      ensures Valid() && cells == old(cells) && nodes == old(nodes) && |nets| == |old(nets)| && Loose(p)
      ensures old(tidy) ==> tidy
      ensures pins == old(pins)[p := old(pins[p]).(dir := In, net := Some(e), netIdx := |old(nets[e].fanouts)|)]
      ensures nets == old(nets)[e := old(nets[e]).(fanouts := old(nets[e].fanouts) + [Some(p)])]
      ensures Fences(old(fence), old(fenced), true)
    {
      hide NodeOk, PinOk, NetOk, Seated, Fenced;
      pins := pins[p := pins[p].(dir := In, net := Some(e), netIdx := |nets[e].fanouts|)];
      nets := nets[e := nets[e].(fanouts := nets[e].fanouts + [Some(p)])];
      LooseNodes(nodes, cells, old(pins), pins, p);
      NetReached(old(pins), pins, old(nets), nets, p, e);
      if tidy { LooseSeats(nodes, old(pins), pins, p); }
      if fenced {
        FenceNets(fence, |nodes|, old(pins), old(nets), nets);
        FencePin(fence, |nodes|, old(pins), pins, nets, p);
      }
    }

    /** add_a_driver_pin_to_net, for a pin that already sits in an output slot */
    method AddDriverPinToNet(e: nat, p: nat)
      requires Valid() && e < |nets| && nets[e].driver == None && p < |pins| && pins[p].dir == Out
      requires pins[p].net == None
      requires pins[p].node.Some? && HasOut(cells, pins[p].node.value, pins[p].nodeIdx)
      requires nodes[pins[p].node.value].outPins[pins[p].nodeIdx] == Some(p)
      modifies this
      ensures Valid() && nodes == old(nodes) && |nets| == |old(nets)| && (old(tidy) ==> tidy)
      ensures cells == SetOut(old(cells), old(pins[p].node.value), old(pins[p].nodeIdx), Some(e))
      ensures nets == old(nets)[e := old(nets[e]).(driver := Some(p))]
      ensures pins == old(pins)[p := old(pins[p]).(net := Some(e))]
      ensures Fences(old(fence), old(fenced), true)
    {
      hide NodeOk, PinOk, NetOk, Seated, InSlotOk, OutSlotOk, Fenced;
      ghost var n, i := pins[p].node.value, pins[p].nodeIdx;
      assert NodeOk(nodes[n], pins, n, cells[n]);
      OutputDriven(nodes[n], pins, n, cells[n], p, i, e);
      pins := pins[p := pins[p].(net := Some(e))];
      nets := nets[e := nets[e].(driver := Some(p))];
      cells := SetOut(cells, n, i, Some(e));
      NetDriven(old(pins), pins, old(nets), nets, p, e);
      forall m {:trigger nodes[m]} | 0 <= m < |nodes| && m != n ensures NodeOk(nodes[m], pins, m, cells[m]) {
        OtherNodeKept(old(nodes[m]), old(pins), pins, m, old(cells[m]), p, n);
      }
      if tidy {
        SeatOf(pins[p], p, nodes);
        SeatsKept(old(nodes), nodes, old(pins), pins, n, p);
      }
      if fenced {
        FenceNets(fence, |nodes|, old(pins), old(nets), nets);
        FencePin(fence, |nodes|, old(pins), pins, nets, p);
      }
    }

    // ----- the compound operations -----

    /** First half of remap_pin_to_new_node: the slot is emptied, its pin sits nowhere. */
    method VacateInput(n: nat, i: nat) returns (p: nat)
      requires Valid() && HasIn(cells, n, i) && cells[n].ins[i].Some?
      modifies this
      ensures Valid() && nets == old(nets) && (old(tidy) ==> tidy) && (old(Bound()) ==> Bound())
      ensures Loose(p) && pins[p].dir == In && pins[p].net == old(cells[n].ins[i])
      ensures pins == old(pins)[p := old(pins[p]).(node := None)] && old(pins[p].node) == Some(n)
      ensures cells == SetIn(old(cells), n, i, None)
      ensures nodes == old(nodes)[n := old(nodes[n]).(inPins := old(nodes[n].inPins)[i := None])]
      ensures KeepsFree(old(pins))
      ensures Fences(old(fence), old(fenced), true)
    {
      hide NodeOk, PinOk, NetOk, Seated, InSlotOk, OutSlotOk, Fenced;
      assert NodeOk(nodes[n], pins, n, cells[n]);
      SlotPin(nodes[n], pins, n, cells[n]);
      p := nodes[n].inPins[i].value;
      InputVacated(nodes[n], pins, n, cells[n], p, i);
      nodes := nodes[n := nodes[n].(inPins := nodes[n].inPins[i := None])];
      cells := SetIn(cells, n, i, None);
      pins := pins[p := pins[p].(node := None)];
      NetsKept(old(pins), pins, nets);
      forall m {:trigger nodes[m]} | 0 <= m < |nodes| && m != n ensures NodeOk(nodes[m], pins, m, cells[m]) {
        OtherNodeKept(old(nodes[m]), old(pins), pins, m, old(cells[m]), p, n);
      }
      if tidy {
        SeatOf(pins[p], p, nodes);
        SeatsKept(old(nodes), nodes, old(pins), pins, n, p);
      }
      if fenced { FencePin(fence, |nodes|, old(pins), pins, nets, p); }
    }

    method VacateOutput(n: nat, i: nat) returns (p: nat)
      requires Valid() && HasOut(cells, n, i) && cells[n].outs[i].Some?
      modifies this
      ensures Valid() && nets == old(nets) && (old(tidy) ==> tidy) && (old(Bound()) ==> Bound())
      ensures Loose(p) && pins[p].dir == Out && pins[p].net == old(cells[n].outs[i])
      ensures pins == old(pins)[p := old(pins[p]).(node := None)] && old(pins[p].node) == Some(n)
      ensures cells == SetOut(old(cells), n, i, None)
      ensures nodes == old(nodes)[n := old(nodes[n]).(outPins := old(nodes[n].outPins)[i := None])]
      ensures KeepsFree(old(pins))
      ensures Fences(old(fence), old(fenced), true)
    {
      hide NodeOk, PinOk, NetOk, Seated, InSlotOk, OutSlotOk, Fenced;
      assert NodeOk(nodes[n], pins, n, cells[n]);
      SlotPin(nodes[n], pins, n, cells[n]);
      p := nodes[n].outPins[i].value;
      OutputVacated(nodes[n], pins, n, cells[n], p, i);
      nodes := nodes[n := nodes[n].(outPins := nodes[n].outPins[i := None])];
      cells := SetOut(cells, n, i, None);
      pins := pins[p := pins[p].(node := None)];
      NetsKept(old(pins), pins, nets);
      forall m {:trigger nodes[m]} | 0 <= m < |nodes| && m != n ensures NodeOk(nodes[m], pins, m, cells[m]) {
        OtherNodeKept(old(nodes[m]), old(pins), pins, m, old(cells[m]), p, n);
      }
      if tidy {
        SeatOf(pins[p], p, nodes);
        SeatsKept(old(nodes), nodes, old(pins), pins, n, p);
      }
      if fenced { FencePin(fence, |nodes|, old(pins), pins, nets, p); }
    }

    /** A slot without a net is empty. */
    lemma {:induction false} EmptySlots(n: nat)
      requires Valid() && Tied(n)
      ensures |cells[n].ins| == |nodes[n].inPins| && |cells[n].outs| == |nodes[n].outPins|
      ensures forall i :: 0 <= i < |cells[n].ins| ==> (cells[n].ins[i] == None <==> nodes[n].inPins[i] == None)
      ensures forall i :: 0 <= i < |cells[n].outs| ==> (cells[n].outs[i] == None <==> nodes[n].outPins[i] == None)
    {
      assert NodeOk(nodes[n], pins, n, cells[n]) && NodeBound(nodes[n], cells[n]);
    }

    /** remap_pin_to_new_node on an input pin: slot (n, i) is vacated, slot (m, j) takes the pin. */
    method RemapInput(n: nat, i: nat, m: nat, j: nat)
      requires Valid() && Tied(m) && HasIn(cells, n, i) && HasIn(cells, m, j) && (n, i) != (m, j)
      requires cells[n].ins[i].Some?
      modifies this
      ensures Valid() && |nets| == |old(nets)| && (old(Bound()) ==> Bound())
      ensures OtherNodes(old(nodes), nodes, n, m) && Tied(m) && (old(Tied(n)) ==> Tied(n))
      ensures cells == SetIn(SetIn(old(cells), n, i, None), m, j, old(cells[n].ins[i]))
      ensures old(tidy) && old(cells[m].ins[j]) == None ==> tidy
      ensures KeepsFree(old(pins))
      ensures Fences(old(fence), old(fenced), old(fence).floor <= m)
    {
      EmptySlots(m);
      var p := VacateInput(n, i);
      AddInputPinToNode(m, p, j);
    }

    /** remap_pin_to_new_node on an output pin */
    method RemapOutput(n: nat, i: nat, m: nat, j: nat)
      requires Valid() && Tied(m) && HasOut(cells, n, i) && HasOut(cells, m, j) && (n, i) != (m, j)
      requires cells[n].outs[i].Some?
      modifies this
      ensures Valid() && |nets| == |old(nets)| && (old(Bound()) ==> Bound())
      ensures OtherNodes(old(nodes), nodes, n, m) && Tied(m) && (old(Tied(n)) ==> Tied(n))
      ensures cells == SetOut(SetOut(old(cells), n, i, None), m, j, old(cells[n].outs[i]))
      ensures old(tidy) && old(cells[m].outs[j]) == None ==> tidy
      ensures KeepsFree(old(pins))
      ensures Fences(old(fence), old(fenced), true)
    {
      EmptySlots(m);
      var p := VacateOutput(n, i);
      AddOutputPinToNode(m, p, j);
    }

    /** A new pin on net `e`, not yet in a slot: get_a_zero_pin, get_a_one_pin, get_a_pad_pin. */
    method NewFanoutPin(e: nat) returns (p: nat)
      requires Valid() && e < |nets|
      modifies this
      ensures KeepsDrivers(old(nets))
      ensures Valid() && cells == old(cells) && nodes == old(nodes) && |nets| == |old(nets)|
      ensures (old(tidy) ==> tidy) && (old(Bound()) ==> Bound())
      ensures p == |old(pins)| && |pins| == p + 1 && pins[..p] == old(pins)
      ensures Loose(p) && pins[p].dir == In && pins[p].net == Some(e) && pins[p].node == None
      ensures Fences(old(fence), old(fenced), true)
    {
      p := AllocatePin();
      AddFanoutPinToNet(e, p);
    }

    /** A new pin on net `e` put into slot (m, j). */
    method AttachNet(e: nat, m: nat, j: nat)
      requires Valid() && Tied(m) && e < |nets| && HasIn(cells, m, j)
      modifies this
      ensures KeepsDrivers(old(nets))
      ensures Valid() && |nets| == |old(nets)| && (old(Bound()) ==> Bound())
      ensures OtherNodes(old(nodes), nodes, m, m) && Tied(m)
      ensures cells == SetIn(old(cells), m, j, Some(e))
      ensures old(tidy) && old(cells[m].ins[j]) == None ==> tidy
      ensures KeepsFree(old(pins))
      ensures Fences(old(fence), old(fenced), old(fence).floor <= m)
    {
      assert NodeBound(nodes[m], cells[m]);
      var p := NewFanoutPin(e);
      AddInputPinToNode(m, p, j);
    }

    method AttachZero(m: nat, j: nat)
      requires Ready() && HasIn(cells, m, j)
      modifies this
      ensures KeepsDrivers(old(nets))
      ensures Ready() && |nets| == |old(nets)|
      ensures cells == SetIn(old(cells), m, j, Some(zeroNet))
      ensures old(tidy) && old(cells[m].ins[j]) == None ==> tidy
      ensures KeepsFree(old(pins))
      ensures Fences(old(fence), old(fenced), old(fence).floor <= m)
    {
      AttachNet(zeroNet, m, j);
    }

    /** copy_input_npin of the pin in slot (n, i), put into slot (m, j) */
    method CopyInput(n: nat, i: nat, m: nat, j: nat)
      requires Valid() && Tied(m) && HasIn(cells, n, i) && HasIn(cells, m, j) && cells[n].ins[i].Some?
      modifies this
      ensures Valid() && |nets| == |old(nets)| && (old(Bound()) ==> Bound())
      ensures OtherNodes(old(nodes), nodes, m, m) && Tied(m)
      ensures cells == SetIn(old(cells), m, j, old(cells[n].ins[i]))
      ensures old(tidy) && old(cells[m].ins[j]) == None ==> tidy
      ensures KeepsFree(old(pins))
      ensures Fences(old(fence), old(fenced), old(fence).floor <= m)
    {
      assert NodeOk(nodes[n], pins, n, cells[n]);
      var q := nodes[n].inPins[i].value;
      assert PinOk(pins[q], q, nets);
      AttachNet(pins[q].net.value, m, j);
    }

    /** A new net driven by a new pin in the empty output slot (o, i). */
    method DriveNewNet(o: nat, i: nat) returns (e: nat)
      requires Ready() && HasOut(cells, o, i) && cells[o].outs[i] == None
      modifies this
      ensures KeepsDrivers(old(nets))
      ensures Ready() && (old(tidy) ==> tidy)
      ensures e == |old(nets)| && |nets| == e + 1
      ensures cells == SetOut(old(cells), o, i, Some(e))
      ensures KeepsFree(old(pins))
      ensures Fences(old(fence), old(fenced), true)
    {
      EmptySlots(o);
      e := AllocateNet();
      var q := AllocatePin();
      AddOutputPinToNode(o, q, i);
      AddDriverPinToNet(e, q);
      ghost var was := old(cells)[o];
      assert was.outs[i := None][i := Some(e)] == was.outs[i := Some(e)];
    }

    /** A new pin in the empty output slot (o, i) becomes the driver of net `e`. */
    method DriveNet(o: nat, i: nat, e: nat)
      requires Ready() && HasOut(cells, o, i) && cells[o].outs[i] == None && e < |nets| && nets[e].driver == None
      modifies this
      ensures Ready() && (old(tidy) ==> tidy) && KeepsFree(old(pins))
      ensures |nets| == |old(nets)| && cells == SetOut(old(cells), o, i, Some(e))
      ensures nets[e].driver.Some?
      ensures forall x {:trigger nets[x]} :: 0 <= x < |nets| && x != e ==> nets[x].driver == old(nets)[x].driver
      ensures Fences(old(fence), old(fenced), true)
    {
      EmptySlots(o);
      var q := AllocatePin();
      AddOutputPinToNode(o, q, i);
      AddDriverPinToNet(e, q);
      ghost var was := old(cells)[o];
      assert was.outs[i := None][i := Some(e)] == was.outs[i := Some(e)];
    }

    /** connect_nodes: returns the net, which is new exactly when the output slot was empty. */
    method ConnectNodes(o: nat, oi: nat, n: nat, i: nat) returns (e: nat)
      requires Ready() && HasOut(cells, o, oi) && HasIn(cells, n, i)
      modifies this
      ensures Ready()
      ensures old(cells[o].outs[oi]).Some? ==>
                e == old(cells[o].outs[oi]).value && |nets| == |old(nets)| && cells == SetIn(old(cells), n, i, Some(e))
      ensures old(cells[o].outs[oi]).None? ==>
                e == |old(nets)| && |nets| == e + 1 && cells == SetIn(SetOut(old(cells), o, oi, Some(e)), n, i, Some(e))
      ensures old(tidy) && old(cells[n].ins[i]) == None ==> tidy
      ensures KeepsFree(old(pins))
      ensures Fences(old(fence), old(fenced), old(fence).floor <= n)
    {
      EmptySlots(o);
      if nodes[o].outPins[oi] == None {
        e := DriveNewNet(o, oi);
      } else {
        var q := nodes[o].outPins[oi].value;
        assert NodeOk(nodes[o], pins, o, cells[o]) && PinOk(pins[q], q, nets);
        e := pins[q].net.value;
      }
      AttachNet(e, n, i);
    }

    /** The shifting loop: pins behind slot `at` move down one slot, one after the other. */
    method ShiftDown(n: nat, at: nat)
      requires Valid() && HasIn(cells, n, at) && (forall i :: 0 <= i < |nodes[n].inPins| ==> nodes[n].inPins[i].Some?)
      modifies this`nodes, this`pins
      ensures nodes == old(nodes)[n := old(nodes[n]).(inPins := Shifted(old(nodes[n].inPins), at,
        |old(nodes[n].inPins)| - 1))]
      ensures |pins| == |old(pins)|
      ensures forall q {:trigger pins[q]} :: 0 <= q < |pins| ==>
        pins[q] == MovedDown(old(pins[q]), q, n, old(nodes[n].inPins), at, |old(nodes[n].inPins)| - 1)
    {
      assert NodeOk(nodes[n], pins, n, cells[n]);
      ghost var slots, pins0 := nodes[n].inPins, pins;
      assert Shifted(slots, at, at) == slots;
      for i := at to |nodes[n].inPins| - 1
        invariant nodes == old(nodes)[n := old(nodes[n]).(inPins := Shifted(slots, at, i))]
        invariant |pins| == |pins0|
        invariant forall q {:trigger pins[q]} :: 0 <= q < |pins| ==> pins[q] == MovedDown(pins0[q], q, n, slots, at, i)
      {
        assert Shifted(slots, at, i)[i := slots[i + 1]] == Shifted(slots, at, i + 1);
        assert InSlotOk(slots[i + 1], pins0, n, i + 1, cells[n].ins[i + 1]);
        ghost var pins1 := pins;
        nodes := nodes[n := nodes[n].(inPins := nodes[n].inPins[i := nodes[n].inPins[i + 1]])];
        var q := nodes[n].inPins[i].value;
        pins := pins[q := pins[q].(nodeIdx := pins[q].nodeIdx - 1)];
        MovedStep(pins0, pins1, pins, n, slots, at, i, q);
      }
    }

    /** The changes to the tables: the shift, the shorter port, and the pin that is now free. */
    method TakeOut(n: nat, at: nat, port: nat) returns (p: nat)
      requires Ready() && HasIn(cells, n, at) && AllConnected(cells[n].ins)
      requires port < |cells[n].inPorts| && cells[n].inPorts[port].width > 0
      modifies this`nodes, this`pins
      ensures Removed(old(nodes), nodes, old(pins), pins, p, n, at, port)
    {
      EmptySlots(n);
      assert NodeOk(nodes[n], pins, n, cells[n]);
      p := nodes[n].inPins[at].value;
      ShiftDown(n, at);
      var last, port' := |nodes[n].inPins| - 1, nodes[n].inPorts[port];
      nodes := nodes[n := nodes[n].(inPins := nodes[n].inPins[..last],
                                    inPorts := nodes[n].inPorts[port := port'.(width := port'.width - 1)])];
      pins := pins[p := pins[p].(node := None)];
    }

    /** The first pin of port `port`, slot `at`, is taken out; the pins behind it move down one slot. */
    method RemoveInputPin(n: nat, at: nat, port: nat) returns (p: nat)
      requires Ready() && HasIn(cells, n, at) && AllConnected(cells[n].ins)
      requires port < |cells[n].inPorts| && cells[n].inPorts[port].width > 0
      modifies this
      ensures Ready() && |nets| == |old(nets)| && (old(tidy) ==> tidy)
      ensures cells == old(cells)[n := WithoutPin(old(cells[n]), at, port)]
      ensures Loose(p) && pins[p].dir == In && pins[p].net == old(cells[n].ins[at])
      ensures KeepsFree(old(pins)) && p < |old(pins)| && old(pins[p].node) == Some(n)
    {
      hide NodeOk, PinOk, NetOk, Seated, Removed, NodeBound;
      fenced := false;
      p := TakeOut(n, at, port);
      NodesAfterRemoval(old(nodes), nodes, old(pins), pins, p, n, at, port, cells, nets);
      PinsAfterRemoval(old(nodes), nodes, old(pins), pins, p, n, at, port, nets, cells[n]);
      BoundAfterRemoval(old(nodes), nodes, old(pins), pins, p, n, at, port, cells,
        cells[n := WithoutPin(cells[n], at, port)]);
      cells := cells[n := WithoutPin(cells[n], at, port)];
      if tidy { TidyAfterRemoval(old(nodes), nodes, old(pins), pins, p, n, at, port); }
    }

    // ----- growing a node -----

    /** allocate_more_node_input_pins with add_input_port_information */
    method AddInputPort(n: nat, width: nat)
      requires Ready() && n < |cells|
      modifies this
      ensures Ready() && pins == old(pins) && nets == old(nets) && (old(tidy) ==> tidy)
      ensures cells == old(cells)[n := old(cells[n]).(ins := old(cells[n].ins) + Nones(width),
        inPorts := old(cells[n].inPorts) + [Port(Plain, width)])]
    {
      assert NodeOk(nodes[n], pins, n, cells[n]) && NodeBound(nodes[n], cells[n]);
      nodes := nodes[n := nodes[n].(inPins := nodes[n].inPins + Nones(width),
        inPorts := nodes[n].inPorts + [Port(Plain, width)])];
      cells := cells[n := cells[n].(ins := cells[n].ins + Nones(width),
        inPorts := cells[n].inPorts + [Port(Plain, width)])];
    }

    /** allocate_more_node_output_pins for one pin */
    method AddOutputSlot(n: nat)
      requires Ready() && n < |cells|
      modifies this
      ensures Ready() && pins == old(pins) && nets == old(nets) && (old(tidy) ==> tidy)
      ensures cells == old(cells)[n := old(cells[n]).(outs := old(cells[n].outs) + [None])]
    {
      assert NodeOk(nodes[n], pins, n, cells[n]) && NodeBound(nodes[n], cells[n]);
      nodes := nodes[n := nodes[n].(outPins := nodes[n].outPins + [None])];
      cells := cells[n := cells[n].(outs := cells[n].outs + [None])];
    }

    /** allocate_more_node_input_pins for one more pin of an input port, at the end of the pin list */
    method GrowInputPort(n: nat, port: nat)
      requires Valid() && Tied(n) && port < |cells[n].inPorts|
      modifies this
      ensures Valid() && pins == old(pins) && nets == old(nets) && (old(tidy) ==> tidy) && (old(Bound()) ==> Bound())
      ensures OtherNodes(old(nodes), nodes, n, n) && Tied(n)
      ensures cells == old(cells)[n := GrownIn(old(cells[n]), port)]
    {
      assert NodeOk(nodes[n], pins, n, cells[n]) && NodeBound(nodes[n], cells[n]);
      var grown := nodes[n].inPorts[port].(width := nodes[n].inPorts[port].width + 1);
      nodes := nodes[n := nodes[n].(inPins := nodes[n].inPins + [None], inPorts := nodes[n].inPorts[port := grown])];
      cells := cells[n := GrownIn(cells[n], port)];
    }

    /** allocate_more_node_output_pins for one more pin of an output port */
    method GrowOutputPort(n: nat, port: nat)
      requires Valid() && Tied(n) && port < |cells[n].outPorts|
      modifies this
      ensures Valid() && pins == old(pins) && nets == old(nets) && (old(tidy) ==> tidy) && (old(Bound()) ==> Bound())
      ensures OtherNodes(old(nodes), nodes, n, n) && Tied(n)
      ensures cells == old(cells)[n := GrownOut(old(cells[n]), port)]
    {
      assert NodeOk(nodes[n], pins, n, cells[n]) && NodeBound(nodes[n], cells[n]);
      nodes := nodes[n := nodes[n].(outPins := nodes[n].outPins + [None],
        outPorts := nodes[n].outPorts[port := nodes[n].outPorts[port] + 1])];
      cells := cells[n := GrownOut(cells[n], port)];
    }

    /** allocate_more_node_input_pins */
    method AllocateMoreInputs(n: nat, more: nat)
      requires Valid() && n < |cells|
      modifies this
      ensures Valid() && pins == old(pins) && nets == old(nets) && OtherNodes(old(nodes), nodes, n, n)
      ensures cells == old(cells)[n := old(cells[n]).(ins := old(cells[n].ins) + Nones(more))]
    {
      assert NodeOk(nodes[n], pins, n, cells[n]);
      nodes := nodes[n := nodes[n].(inPins := nodes[n].inPins + Nones(more))];
      cells := cells[n := cells[n].(ins := cells[n].ins + Nones(more))];
    }

    method AllocateMoreOutputs(n: nat, more: nat)
      requires Valid() && n < |cells|
      modifies this
      ensures Valid() && pins == old(pins) && nets == old(nets) && OtherNodes(old(nodes), nodes, n, n)
      ensures cells == old(cells)[n := old(cells[n]).(outs := old(cells[n].outs) + Nones(more))]
    {
      assert NodeOk(nodes[n], pins, n, cells[n]);
      nodes := nodes[n := nodes[n].(outPins := nodes[n].outPins + Nones(more))];
      cells := cells[n := cells[n].(outs := cells[n].outs + Nones(more))];
    }

    method SetInputPortSize(n: nat, port: nat, width: nat)
      requires Valid() && n < |cells| && port < |cells[n].inPorts|
      modifies this
      ensures Valid() && pins == old(pins) && nets == old(nets) && OtherNodes(old(nodes), nodes, n, n)
      ensures cells == old(cells)[n := old(cells[n]).(inPorts := old(cells[n].inPorts)[port := old(cells[n].inPorts[port]).(width := width)])]
    {
      assert NodeOk(nodes[n], pins, n, cells[n]);
      nodes := nodes[n := nodes[n].(inPorts := nodes[n].inPorts[port := nodes[n].inPorts[port].(width := width)])];
      cells := cells[n := cells[n].(inPorts := cells[n].inPorts[port := cells[n].inPorts[port].(width := width)])];
    }

    method SetOutputPortSize(n: nat, port: nat, width: nat)
      requires Valid() && n < |cells| && port < |cells[n].outPorts|
      modifies this
      ensures Valid() && pins == old(pins) && nets == old(nets)
      ensures cells == old(cells)[n := old(cells[n]).(outPorts := old(cells[n].outPorts)[port := width])]
      ensures n < |old(nodes)| && port < |old(nodes[n].outPorts)|
      ensures nodes == old(nodes)[n := old(nodes[n]).(outPorts := old(nodes[n].outPorts)[port := width])]
    {
      assert NodeOk(nodes[n], pins, n, cells[n]);
      nodes := nodes[n := nodes[n].(outPorts := nodes[n].outPorts[port := width])];
      cells := cells[n := cells[n].(outPorts := cells[n].outPorts[port := width])];
    }

    /** move_a_input_pin */
    method MoveInputPin(n: nat, from: nat, to: nat)
      requires Valid() && HasIn(cells, n, from) && HasIn(cells, n, to) && from != to && cells[n].ins[from].Some?
      modifies this
      ensures Valid() && |nets| == |old(nets)| && OtherNodes(old(nodes), nodes, n, n)
      ensures cells == old(cells)[n := old(cells[n]).(ins := old(cells[n].ins)[to := old(cells[n].ins[from])][from := None])]
    {
      hide NodeOk, PinOk, NetOk, Seated, InSlotOk, OutSlotOk, Fenced;
      fenced := false;
      assert NodeOk(nodes[n], pins, n, cells[n]);
      SlotPin(nodes[n], pins, n, cells[n]);
      var p := nodes[n].inPins[from].value;
      InputMoved(nodes[n], pins, n, cells[n], p, from, to);
      tidy := tidy && nodes[n].inPins[to] == None;
      nodes := nodes[n := nodes[n].(inPins := nodes[n].inPins[to := Some(p)][from := None])];
      pins := pins[p := pins[p].(nodeIdx := to)];
      cells := cells[n := cells[n].(ins := cells[n].ins[to := cells[n].ins[from]][from := None])];
      NetsKept(old(pins), pins, nets);
      forall m {:trigger nodes[m]} | 0 <= m < |nodes| && m != n ensures NodeOk(nodes[m], pins, m, cells[m]) {
        OtherNodeKept(old(nodes[m]), old(pins), pins, m, old(cells[m]), p, n);
      }
      if tidy {
        SeatOf(pins[p], p, nodes);
        SeatsKept(old(nodes), nodes, old(pins), pins, n, p);
      }
    }

    /** move_a_output_pin */
    method MoveOutputPin(n: nat, from: nat, to: nat)
      requires Valid() && HasOut(cells, n, from) && HasOut(cells, n, to) && from != to && cells[n].outs[from].Some?
      modifies this
      ensures Valid() && |nets| == |old(nets)| && OtherNodes(old(nodes), nodes, n, n)
      ensures cells == old(cells)[n := old(cells[n]).(outs := old(cells[n].outs)[to := old(cells[n].outs[from])][from := None])]
    {
      hide NodeOk, PinOk, NetOk, Seated, InSlotOk, OutSlotOk, Fenced;
      fenced := false;
      assert NodeOk(nodes[n], pins, n, cells[n]);
      SlotPin(nodes[n], pins, n, cells[n]);
      var p := nodes[n].outPins[from].value;
      OutputMoved(nodes[n], pins, n, cells[n], p, from, to);
      tidy := tidy && nodes[n].outPins[to] == None;
      nodes := nodes[n := nodes[n].(outPins := nodes[n].outPins[to := Some(p)][from := None])];
      pins := pins[p := pins[p].(nodeIdx := to)];
      cells := cells[n := cells[n].(outs := cells[n].outs[to := cells[n].outs[from]][from := None])];
      NetsKept(old(pins), pins, nets);
      forall m {:trigger nodes[m]} | 0 <= m < |nodes| && m != n ensures NodeOk(nodes[m], pins, m, cells[m]) {
        OtherNodeKept(old(nodes[m]), old(pins), pins, m, old(cells[m]), p, n);
      }
      if tidy {
        SeatOf(pins[p], p, nodes);
        SeatsKept(old(nodes), nodes, old(pins), pins, n, p);
      }
    }

    /** free_nnode of a node whose pins have all moved away: its entry stays, and does nothing. */
    method FreeNode(n: nat)
      requires Valid() && Tied(n)
      requires (forall i :: 0 <= i < |cells[n].ins| ==> cells[n].ins[i] == None)
      requires (forall i :: 0 <= i < |cells[n].outs| ==> cells[n].outs[i] == None)
      modifies this
      ensures Valid() && nets == old(nets) && pins == old(pins) && (old(tidy) ==> tidy) && (old(Bound()) ==> Bound())
      ensures OtherNodes(old(nodes), nodes, n, n) && Tied(n)
      ensures cells == old(cells)[n := Freed]
    {
      EmptySlots(n);
      nodes := nodes[n := Node(PadNode, [], [], [], [])];
      cells := cells[n := Freed];
    }

    /** An output pin on a new net, and a pin of that net handed on: make_output_pins_for_existing_node. */
    method NewOutput(n: nat, i: nat) returns (p: nat)
      requires Ready() && HasOut(cells, n, i) && cells[n].outs[i] == None
      modifies this
      ensures KeepsDrivers(old(nets))
      ensures Ready() && (old(tidy) ==> tidy) && KeepsFree(old(pins))
      ensures |nets| == |old(nets)| + 1 && cells == SetOut(old(cells), n, i, Some(|old(nets)|))
      ensures |old(pins)| <= p < |pins| && Loose(p) && pins[p].dir == In && pins[p].net == Some(|old(nets)|)
    {
      var e := DriveNewNet(n, i);
      ghost var pins1 := pins;
      p := NewFanoutPin(e);
      assert forall q {:trigger pins1[q]} :: 0 <= q < |pins1| ==> pins[q] == pins[..p][q];
    }

    /** No net got another driver. */
    ghost predicate KeepsDrivers(before: seq<Net>)
      reads this
    {
      && |before| <= |nets|
      && forall e {:trigger before[e]} :: 0 <= e < |before| ==> nets[e].driver == before[e].driver
    }

    /** Pins that never sat anywhere are untouched. */
    ghost predicate KeepsFree(before: seq<Pin>)
      reads this
    {
      && |before| <= |pins|
      && forall p {:trigger before[p]} :: 0 <= p < |before| && before[p].node == None ==> pins[p] == before[p]
    }
  }

  /** A pin that sits nowhere and is on net `e`. */
  ghost predicate Free(g: Netlist, p: nat, e: Option<nat>)
    reads g
  {
    FreeIn(g.pins, p, e)
  }

  predicate FreeIn(pins: seq<Pin>, p: nat, e: Option<nat>) {
    p < |pins| && pins[p].node == None && pins[p].dir == In && pins[p].net == e && e.Some?
  }
}
