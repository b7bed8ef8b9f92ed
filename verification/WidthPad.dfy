/** The loops of pad_memory_input_port and pad_memory_output_port: pins move up, the gap is filled. */
module WidthPad {
  import opened Wrappers
  import opened Bits
  import opened Semantics
  import opened Runs
  import opened Netlists
  import opened MemoryPorts
  import opened BankSplit
  import opened SpSplit
  import opened WidthSlices
  import opened WidthParts

  /** `s` with `filler` put in at position `at`. */
  function Inserted(s: seq<Option<nat>>, at: nat, filler: seq<Option<nat>>): (r: seq<Option<nat>>)
    requires at <= |s|
  {
    s[..at] + filler + s[at..]
  }

  function Pads(k: nat, pad: nat): (r: seq<Option<nat>>)
    ensures |r| == k && forall i {:trigger r[i]} :: 0 <= i < k ==> r[i] == Some(pad)
  {
    seq(k, _ => Some(pad))
  }

  /** Input port `k` filled up to `target` pins on the pad net. */
  function PaddedIn(c: Cell, k: nat, target: nat, pad: nat): Cell
    requires k < |c.inPorts| && c.inPorts[k].width <= target && Offset(c.inPorts, k) + c.inPorts[k].width <= |c.ins|
  {
    var size := c.inPorts[k].width;
    c.(ins := Inserted(c.ins, Offset(c.inPorts, k) + size, Pads(target - size, pad)),
       inPorts := c.inPorts[k := c.inPorts[k].(width := target)])
  }

  /** Output port `j`, whose pins end before slot `at`, filled up to `target` pins without a net. */
  function PaddedOut(c: Cell, j: nat, at: nat, target: nat): Cell
    requires j < |c.outPorts| && c.outPorts[j] <= target && at <= |c.outs|
  {
    c.(outs := Inserted(c.outs, at, Nones(target - c.outPorts[j])), outPorts := c.outPorts[j := target])
  }

  // ----- the loops -----

  lemma {:induction false} MovedUp(s: seq<Option<nat>>, at: nat, gap: nat)
    requires 1 <= at <= |s| && gap >= 1
    ensures var t := Inserted(s, at, Nones(gap));
      && t[at - 1] == s[at - 1]
      && t[at - 1 + gap := t[at - 1]][at - 1 := None] == Inserted(s, at - 1, Nones(gap))
  {
  }

  lemma {:induction false} FilledUp(s: seq<Option<nat>>, at: nat, gap: nat, pad: nat, k: nat)
    requires at <= |s| && k < gap
    ensures Inserted(s, at, Pads(k, pad) + Nones(gap - k))[at + k := Some(pad)]
      == Inserted(s, at, Pads(k + 1, pad) + Nones(gap - k - 1))
  {
  }

  /** The pins behind slot `at` move up by `gap` slots, the last one first. */
  method ShiftInputsUp(g: Netlist, n: nat, at: nat, gap: nat, ghost s: seq<Option<nat>>)
    requires g.Valid() && n < |g.cells| && at <= |s| && gap >= 1
    requires g.cells[n].ins == s + Nones(gap) && AllConnected(s)
    modifies g
    ensures g.Valid() && |g.nets| == |old(g.nets)| && OtherNodes(old(g.nodes), g.nodes, n, n)
    ensures g.cells == old(g.cells)[n := old(g.cells[n]).(ins := Inserted(s, at, Nones(gap)))]
  {
    ghost var before, c := g.cells, g.cells[n];
    assert NodeOk(g.nodes[n], g.pins, n, g.cells[n]);
    assert s + Nones(gap) == Inserted(s, |s|, Nones(gap));
    for i := |g.nodes[n].inPins| downto at + gap
      invariant g.Valid() && |g.nets| == |old(g.nets)| && OtherNodes(old(g.nodes), g.nodes, n, n)
      invariant at + gap <= i <= |s| + gap
      invariant g.cells == before[n := c.(ins := Inserted(s, i - gap, Nones(gap)))]
    {
      MovedUp(s, i + 1 - gap, gap);
      g.MoveInputPin(n, i - gap, i);
      assert g.cells == before[n := c.(ins := Inserted(s, i - gap, Nones(gap)))];
    }
  }

  method ShiftOutputsUp(g: Netlist, n: nat, at: nat, gap: nat, ghost s: seq<Option<nat>>)
    requires g.Valid() && n < |g.cells| && at <= |s| && gap >= 1
    requires g.cells[n].outs == s + Nones(gap) && AllConnected(s[at..])
    modifies g
    ensures g.Valid() && |g.nets| == |old(g.nets)| && OtherNodes(old(g.nodes), g.nodes, n, n)
    ensures g.cells == old(g.cells)[n := old(g.cells[n]).(outs := Inserted(s, at, Nones(gap)))]
  {
    ghost var before, c := g.cells, g.cells[n];
    assert NodeOk(g.nodes[n], g.pins, n, g.cells[n]);
    assert s + Nones(gap) == Inserted(s, |s|, Nones(gap));
    for i := |g.nodes[n].outPins| downto at + gap
      invariant g.Valid() && |g.nets| == |old(g.nets)| && OtherNodes(old(g.nodes), g.nodes, n, n)
      invariant at + gap <= i <= |s| + gap
      invariant g.cells == before[n := c.(outs := Inserted(s, i - gap, Nones(gap)))]
    {
      MovedUp(s, i + 1 - gap, gap);
      assert s[i - gap] == s[at..][i - gap - at];
      g.MoveOutputPin(n, i - gap, i);
      assert g.cells == before[n := c.(outs := Inserted(s, i - gap, Nones(gap)))];
    }
  }

  /** The gap is filled with pins on the pad net. */
  method FillWithPads(g: Netlist, n: nat, at: nat, gap: nat, ghost s: seq<Option<nat>>)
    requires g.Valid() && n < |g.cells| && at <= |s| && g.cells[n].ins == Inserted(s, at, Nones(gap))
    modifies g
    ensures g.Valid() && |g.nets| == |old(g.nets)| && OtherNodes(old(g.nodes), g.nodes, n, n)
    ensures g.cells == old(g.cells)[n := old(g.cells[n]).(ins := Inserted(s, at, Pads(gap, g.padNet)))]
  {
    hide NodeOk, NetOk;
    ghost var before, c := g.cells, g.cells[n];
    assert Pads(0, g.padNet) + Nones(gap - 0) == Nones(gap);
    for k := 0 to gap
      invariant g.Valid() && |g.nets| == |old(g.nets)| && OtherNodes(old(g.nodes), g.nodes, n, n)
      invariant g.cells == before[n := c.(ins := Inserted(s, at, Pads(k, g.padNet) + Nones(gap - k)))]
    {
      FilledUp(s, at, gap, g.padNet, k);
      var p := g.NewFanoutPin(g.padNet);
      g.AddInputPinToNode(n, p, at + k);
      assert g.cells == before[n := c.(ins := Inserted(s, at, Pads(k + 1, g.padNet) + Nones(gap - (k + 1))))];
    }
    assert Pads(gap, g.padNet) + Nones(0) == Pads(gap, g.padNet);
  }

  /** The gap is filled with new pins that are on no net. */
  method FillWithLoosePins(g: Netlist, n: nat, at: nat, gap: nat, ghost s: seq<Option<nat>>)
    requires g.Valid() && n < |g.cells| && at <= |s| && g.cells[n].outs == Inserted(s, at, Nones(gap))
    modifies g
    ensures g.Valid() && |g.nets| == |old(g.nets)| && OtherNodes(old(g.nodes), g.nodes, n, n) && g.cells == old(g.cells)
    ensures forall i :: at <= i < at + gap ==> n < |g.nodes| && i < |g.nodes[n].outPins| && g.nodes[n].outPins[i].Some?
  {
    assert NodeOk(g.nodes[n], g.pins, n, g.cells[n]);
    for k := 0 to gap
      invariant g.Valid() && |g.nets| == |old(g.nets)| && OtherNodes(old(g.nodes), g.nodes, n, n)
      invariant g.cells == old(g.cells) && |g.nodes| == |g.cells|
      invariant |g.nodes[n].outPins| == |s| + gap
      invariant forall i :: at <= i < at + k ==> g.nodes[n].outPins[i].Some?
    {
      ghost var outs := g.cells[n].outs;
      assert outs[at + k] == None && outs[at + k := None] == outs;
      var p := g.AllocatePin();
      g.AddOutputPinToNode(n, p, at + k);
      assert g.cells == old(g.cells);
    }
  }
}
