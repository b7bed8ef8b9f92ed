/** Gates over lists of pins, as the node creation library makes them. */
module Gates {
  import opened Wrappers
  import opened Bits
  import opened Semantics
  import opened Runs
  import opened Netlists
  import opened RippleCells
  import opened Growth

  /** Pins that sat nowhere are untouched, all but the listed ones. */
  ghost predicate KeptBut(before: seq<Pin>, after: seq<Pin>, taken: seq<nat>) {
    && |before| <= |after|
    && forall p {:trigger before[p]} :: 0 <= p < |before| && before[p].node == None && p !in taken ==>
      after[p] == before[p]
  }

  /** The pins sit nowhere, are all different, and are on these nets. */
  ghost predicate AllFree(g: Netlist, pins: seq<nat>, ins: seq<Option<nat>>)
    reads g
  {
    |pins| == |ins| && Distinct(pins) && forall i :: 0 <= i < |pins| ==> Free(g, pins[i], ins[i])
  }

  lemma {:induction false} KeptThen(before: seq<Pin>, mid: seq<Pin>, after: seq<Pin>, taken: seq<nat>)
    requires KeptBut(before, mid, taken) && |mid| <= |after|
    requires forall p {:trigger mid[p]} :: 0 <= p < |mid| && mid[p].node == None ==> after[p] == mid[p]
    ensures KeptBut(before, after, taken)
  {
    forall p {:trigger before[p]} | 0 <= p < |before| && before[p].node == None && p !in taken
      ensures after[p] == before[p] {
      assert mid[p] == before[p];
    }
  }

  /** New pins on the given nets. */
  method FreshPins(g: Netlist, nets: seq<nat>) returns (pins: seq<nat>)
    requires g.Ready() && forall i :: 0 <= i < |nets| ==> nets[i] < |g.nets|
    modifies g
    ensures g.KeepsDrivers(old(g.nets))
    ensures g.Ready() && g.cells == old(g.cells) && |g.nets| == |old(g.nets)| && (old(g.tidy) ==> g.tidy)
    ensures g.KeepsFree(old(g.pins))
    ensures AllFree(g, pins, Somes(nets)) && AllAtLeast(pins, |old(g.pins)|)
  {
    hide Netlist.Valid, PinOk;
    pins := [];
    for i := 0 to |nets|
      invariant g.KeepsDrivers(old(g.nets))
      invariant g.Ready() && g.cells == old(g.cells) && |g.nets| == |old(g.nets)| && (old(g.tidy) ==> g.tidy)
      invariant |old(g.pins)| <= |g.pins|
      invariant forall p {:trigger g.pins[p]} :: 0 <= p < |old(g.pins)| ==> g.pins[p] == old(g.pins)[p]
      invariant |pins| == i && Distinct(pins) && AllAtLeast(pins, |old(g.pins)|)
      invariant forall k :: 0 <= k < i ==> Free(g, pins[k], Some(nets[k]))
    {
      ghost var before := g.pins;
      var p := g.NewFanoutPin(nets[i]);
      assert forall q {:trigger g.pins[q]} :: 0 <= q < |before| ==> g.pins[q] == g.pins[..p][q] == before[q];
      pins := pins + [p];
    }
  }

  function Somes(nets: seq<nat>): (r: seq<Option<nat>>)
    ensures |r| == |nets|
    ensures forall i {:trigger r[i]} :: 0 <= i < |nets| ==> r[i] == Some(nets[i])
  {
    seq(|nets|, (i: nat) requires i < |nets| => Some(nets[i]))
  }

  /** `ins` with the slots from `base` on replaced by `s`. */
  function Placed(ins: seq<Option<nat>>, base: nat, s: seq<Option<nat>>): (r: seq<Option<nat>>)
    requires base + |s| <= |ins|
    ensures |r| == |ins|
    ensures forall i {:trigger r[i]} :: 0 <= i < |ins| ==>
      r[i] == if base <= i < base + |s| then s[i - base] else ins[i]
  {
    ins[..base] + s + ins[base + |s|..]
  }

  /** The pins go into the slots of `n` from `base` on. */
  method SeatPins(g: Netlist, n: nat, base: nat, pins: seq<nat>, ghost ins: seq<Option<nat>>)
    requires g.Ready() && n < |g.cells| && base + |pins| <= |g.cells[n].ins| && AllFree(g, pins, ins)
    requires forall i :: base <= i < base + |pins| ==> g.cells[n].ins[i] == None
    modifies g
    ensures g.KeepsDrivers(old(g.nets))
    ensures g.Ready() && |g.nets| == |old(g.nets)| && (old(g.tidy) ==> g.tidy) && KeptBut(old(g.pins), g.pins, pins)
    ensures g.cells == old(g.cells)[n := old(g.cells[n]).(ins := Placed(old(g.cells[n].ins), base, ins))]
  {
    hide Netlist.Valid, PinOk;
    ghost var c := g.cells[n];
    assert Placed(c.ins, base, ins[..0]) == c.ins;
    for j := 0 to |pins|
      invariant g.KeepsDrivers(old(g.nets))
      invariant g.Ready() && |g.nets| == |old(g.nets)| && (old(g.tidy) ==> g.tidy) && KeptBut(old(g.pins), g.pins, pins)
      invariant g.cells == old(g.cells)[n := c.(ins := Placed(c.ins, base, ins[..j]))]
      invariant forall k :: j <= k < |pins| ==> Free(g, pins[k], ins[k])
    {
      assert g.cells[n] == c.(ins := Placed(c.ins, base, ins[..j]));
      g.EmptySlots(n);
      g.AddInputPinToNode(n, pins[j], base + j);
      assert Placed(c.ins, base, ins[..j])[base + j := ins[j]] == Placed(c.ins, base, ins[..j + 1]);
    }
    assert ins[..|pins|] == ins;
  }

  /** A new node with the listed pins in its slots. */
  method SeatedNode(g: Netlist, kind: Kind, inPorts: seq<Port>, outPorts: seq<nat>, pins: seq<nat>,
                    ghost ins: seq<Option<nat>>) returns (n: nat)
    requires g.Ready() && AllFree(g, pins, ins)
    modifies g
    ensures g.KeepsDrivers(old(g.nets))
    ensures g.Ready() && |g.nets| == |old(g.nets)| && (old(g.tidy) ==> g.tidy) && KeptBut(old(g.pins), g.pins, pins)
    ensures n == |old(g.cells)| && g.cells == old(g.cells) + [Cell(kind, ins, [None], inPorts, outPorts)]
  {
    ghost var cells0, pins0 := g.cells, g.pins;
    n := g.AllocateNode(kind, inPorts, |pins|, outPorts, 1);
    ghost var pins1 := g.pins;
    SeatPins(g, n, 0, pins, ins);
    KeptAfter(pins0, pins1, g.pins, pins);
    SeatedCell(cells0, n, kind, inPorts, outPorts, ins);
  }

  lemma {:induction false} KeptAfter(before: seq<Pin>, mid: seq<Pin>, after: seq<Pin>, taken: seq<nat>)
    requires |before| <= |mid| && KeptBut(mid, after, taken)
    requires forall p {:trigger mid[p]} :: 0 <= p < |before| && before[p].node == None ==> mid[p] == before[p]
    ensures KeptBut(before, after, taken)
  {
    forall p {:trigger before[p]} | 0 <= p < |before| && before[p].node == None && p !in taken
      ensures after[p] == before[p] {
      assert mid[p] == before[p];
    }
  }

  lemma {:induction false} SeatedCell(cells: seq<Cell>, n: nat, kind: Kind, inPorts: seq<Port>, outPorts: seq<nat>,
                                      ins: seq<Option<nat>>)
    requires n == |cells|
    ensures var c := Cell(kind, Nones(|ins|), Nones(1), inPorts, outPorts);
      (cells + [c])[n := c.(ins := Placed(c.ins, 0, ins))] == cells + [Cell(kind, ins, [None], inPorts, outPorts)]
  {
    assert Placed(Nones(|ins|), 0, ins) == ins;
    assert Nones(1) == [None];
  }

  /** A gate over the listed pins, its output on a new net with a pin `p` handed on. */
  method GateOver(g: Netlist, kind: Kind, inPorts: seq<Port>, outPorts: seq<nat>, pins: seq<nat>,
                  ghost ins: seq<Option<nat>>) returns (p: nat)
    requires g.Ready() && AllFree(g, pins, ins)
    modifies g
    ensures g.KeepsDrivers(old(g.nets))
    ensures g.Ready() && |g.nets| == |old(g.nets)| + 1 && (old(g.tidy) ==> g.tidy) && KeptBut(old(g.pins), g.pins, pins)
    ensures g.cells == old(g.cells) + [Cell(kind, ins, [Some(|old(g.nets)|)], inPorts, outPorts)]
    ensures p >= |old(g.pins)| && Free(g, p, Some(|old(g.nets)|))
  {
    ghost var pins0, e := g.pins, |g.nets|;
    var n := SeatedNode(g, kind, inPorts, outPorts, pins, ins);
    ghost var pins1 := g.pins;
    p := g.NewOutput(n, 0);
    KeptThen(pins0, pins1, g.pins, pins);
    assert [None][0 := Some(e)] == [Some(e)];
  }
}
