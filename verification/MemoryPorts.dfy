/** The ports of a memory node: finding them, taking out an address pin, replacing an enable. */
module MemoryPorts {
  import opened Wrappers
  import opened Bits
  import opened Semantics
  import opened Netlists
  import opened Runs

  function Tail<T>(s: seq<T>): seq<T> {
    if s == [] then [] else s[1..]
  }

  predicate DistinctRoles(ports: seq<Port>) {
    forall i, j :: 0 <= i < j < |ports| ==> ports[i].role != ports[j].role
  }

  /** Every port has pins, no mapping name occurs twice, and the pins are exactly the ports'. */
  predicate PortShape(c: Cell) {
    && DistinctRoles(c.inPorts)
    && (forall k :: 0 <= k < |c.inPorts| ==> c.inPorts[k].width >= 1)
    && Offset(c.inPorts, |c.inPorts|) == |c.ins|
    && AllConnected(c.ins) && AllConnected(c.outs)
  }

  lemma {:induction false} OffsetStep(ports: seq<Port>, k: nat)
    requires k < |ports|
    ensures Offset(ports, k + 1) == Offset(ports, k) + ports[k].width
  {
  }

  lemma {:induction false} OffsetOrder(ports: seq<Port>, k: nat, l: nat)
    requires k < l <= |ports|
    ensures Offset(ports, k) + ports[k].width <= Offset(ports, l)
  {
    if k + 1 < l { OffsetOrder(ports, k, l - 1); }
  }

  lemma {:induction false} FindPortByRoles(p: seq<Port>, q: seq<Port>, role: Role)
    requires |p| == |q| && forall k :: 0 <= k < |p| ==> p[k].role == q[k].role
    ensures FindPort(p, role) == FindPort(q, role)
  {
  }

  lemma {:induction false} FindPortIs(ports: seq<Port>, role: Role, k: nat)
    requires DistinctRoles(ports) && k < |ports| && ports[k].role == role
    ensures FindPort(ports, role) == k
  {
  }

  lemma {:induction false} OffsetDropped(ports: seq<Port>, a: nat, k: nat)
    requires a < |ports| && ports[a].width >= 1 && k <= |ports|
    ensures Offset(ports[a := ports[a].(width := ports[a].width - 1)], k) == Offset(ports, k) - (if k > a then 1 else 0)
  {
    if k > 0 { OffsetDropped(ports, a, k - 1); }
  }

  /** The node without the first pin of port `a`. */
  function Dropped(c: Cell, a: nat): Cell
    requires PortShape(c) && a < |c.inPorts|
  {
    OffsetOrder(c.inPorts, a, |c.inPorts|);
    WithoutPin(c, Offset(c.inPorts, a), a)
  }

  lemma {:induction false} PortSlots(c: Cell, k: nat)
    requires PortShape(c) && k < |c.inPorts|
    ensures Offset(c.inPorts, k) + c.inPorts[k].width <= |c.ins|
    ensures PortOf(c.inPorts, c.ins, k) == c.ins[Offset(c.inPorts, k)..Offset(c.inPorts, k) + c.inPorts[k].width]
  {
    OffsetOrder(c.inPorts, k, |c.inPorts|);
  }

  lemma {:induction false} DroppedPort(c: Cell, a: nat, k: nat)
    requires PortShape(c) && a < |c.inPorts| && k < |c.inPorts|
    ensures PortOf(Dropped(c, a).inPorts, Dropped(c, a).ins, k)
         == if k == a then Tail(PortOf(c.inPorts, c.ins, k)) else PortOf(c.inPorts, c.ins, k)
  {
    OffsetDropped(c.inPorts, a, k);
    PortSlots(c, a);
    PortSlots(c, k);
    if k < a { OffsetOrder(c.inPorts, k, a); }
    if a < k { OffsetOrder(c.inPorts, a, k); }
    var d, lo, w := Dropped(c, a), Offset(c.inPorts, k), c.inPorts[k].width;
    DroppedSlice(c.ins, Offset(c.inPorts, a), lo, w);
    assert Offset(d.inPorts, k) == lo - (if k > a then 1 else 0);
    assert d.inPorts[k].width == if k == a then w - 1 else w;
    assert |d.ins| == |c.ins| - 1;
    assert PortOf(d.inPorts, d.ins, k) == Slice(d.ins, Offset(d.inPorts, k), d.inPorts[k].width);
  }

  lemma {:induction false} DroppedSlice(s: seq<Option<nat>>, at: nat, lo: nat, len: nat)
    requires at < |s| && lo + len <= |s|
    ensures var d := s[..at] + s[at + 1..];
      && (lo + len <= at ==> d[lo..lo + len] == s[lo..lo + len])
      && (at < lo ==> d[lo - 1..lo - 1 + len] == s[lo..lo + len])
      && (at == lo && len >= 1 ==> d[lo..lo + len - 1] == s[lo..lo + len][1..])
  {
  }

  /** Taking out an address pin shortens that port by its low bit and leaves the others alone. */
  lemma {:induction false} DroppedRoles(c: Cell, a: nat, role: Role)
    requires PortShape(c) && a < |c.inPorts|
    ensures RoleSlots(Dropped(c, a), role) ==
      if FindPort(c.inPorts, role) == a then Tail(RoleSlots(c, role)) else RoleSlots(c, role)
  {
    FindPortByRoles(c.inPorts, Dropped(c, a).inPorts, role);
    var k := FindPort(c.inPorts, role);
    if k < |c.inPorts| {
      DroppedPort(c, a, k);
    }
  }

  lemma {:induction false} DroppedShape(c: Cell, a: nat)
    requires PortShape(c) && a < |c.inPorts| && c.inPorts[a].width >= 2
    ensures PortShape(Dropped(c, a))
  {
    OffsetDropped(c.inPorts, a, |c.inPorts|);
    OffsetOrder(c.inPorts, a, |c.inPorts|);
    var d := Dropped(c, a);
    assert forall i {:trigger d.ins[i]} :: 0 <= i < |d.ins| ==>
      d.ins[i] == if i < Offset(c.inPorts, a) then c.ins[i] else c.ins[i + 1];
  }

  /** The node with another net on the first pin of port `a`. */
  function Rewired(c: Cell, a: nat, e: nat): Cell
    requires PortShape(c) && a < |c.inPorts|
  {
    OffsetOrder(c.inPorts, a, |c.inPorts|);
    c.(ins := c.ins[Offset(c.inPorts, a) := Some(e)])
  }

  lemma {:induction false} RewiredShape(c: Cell, a: nat, e: nat)
    requires PortShape(c) && a < |c.inPorts|
    ensures PortShape(Rewired(c, a, e)) && Rewired(c, a, e) == c.(ins := Rewired(c, a, e).ins)
  {
    OffsetOrder(c.inPorts, a, |c.inPorts|);
  }

  lemma {:induction false} RewiredRoles(c: Cell, a: nat, e: nat, role: Role)
    requires PortShape(c) && a < |c.inPorts|
    ensures |RoleSlots(c, role)|
      == (if FindPort(c.inPorts, role) < |c.inPorts| then c.inPorts[FindPort(c.inPorts, role)].width else 0)
    ensures RoleSlots(Rewired(c, a, e), role) ==
      if FindPort(c.inPorts, role) == a then RoleSlots(c, role)[0 := Some(e)] else RoleSlots(c, role)
  {
    var k := FindPort(c.inPorts, role);
    if k < |c.inPorts| {
      PortSlots(c, a);
      PortSlots(c, k);
      if k < a { OffsetOrder(c.inPorts, k, a); }
      if a < k { OffsetOrder(c.inPorts, a, k); }
      UpdatedSlice(c.ins, Offset(c.inPorts, a), Some(e), Offset(c.inPorts, k), c.inPorts[k].width);
    }
  }

  lemma {:induction false} UpdatedSlice(s: seq<Option<nat>>, at: nat, e: Option<nat>, lo: nat, len: nat)
    requires at < |s| && lo + len <= |s|
    ensures at < lo || lo + len <= at ==> s[at := e][lo..lo + len] == s[lo..lo + len]
    ensures at == lo && len >= 1 ==> s[at := e][lo..lo + len] == s[lo..lo + len][0 := e]
  {
  }

  /** Live address bits: those before the first pin that sits on the pad net. */
  function Live(slots: seq<Option<nat>>, pad: nat): (n: nat)
    ensures n <= |slots|
    ensures forall i :: 0 <= i < n ==> slots[i] != Some(pad)
    ensures n < |slots| ==> slots[n] == Some(pad)
  {
    if slots == [] || slots[0] == Some(pad) then 0 else 1 + Live(slots[1..], pad)
  }

  /** The loop over the ports of a node that looks for a mapping name, counting pins as it goes. */
  method LookUpPort(ports: seq<Port>, role: Role) returns (port: nat, at: nat)
    requires DistinctRoles(ports)
    ensures port == FindPort(ports, role) && (port < |ports| ==> at == Offset(ports, port))
  {
    var idx := 0;
    port, at := |ports|, 0;
    for i := 0 to |ports|
      invariant idx == Offset(ports, i)
      invariant port == |ports| ==> forall j :: 0 <= j < i ==> ports[j].role != role
      invariant port < |ports| ==> port < i && ports[port].role == role && at == Offset(ports, port)
      invariant port <= |ports|
    {
      if ports[i].role == role {
        port, at := i, idx;
      }
      idx := idx + ports[i].width;
    }
    if port < |ports| { FindPortIs(ports, role, port); }
  }

}
