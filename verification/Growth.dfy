/** Adding combinational cells that drive fresh nets changes no behaviour. */
module Growth {
  import opened Wrappers
  import opened Bits
  import opened Semantics
  import opened Runs
  import opened Netlists
  import opened RippleCells

  /** The output nets of a new cell: one fresh net after the other. */
  function FreshOuts(base: nat, w: nat): (r: seq<Option<nat>>)
    ensures |r| == w
    ensures forall i {:trigger r[i]} :: 0 <= i < w ==> r[i] == Some(base + i)
  {
    seq(w, (i: nat) => Some(base + i))
  }

  function FreshNames(base: nat, w: nat): (r: seq<nat>)
    ensures |r| == w && FreshNets(r, base)
    ensures forall i {:trigger r[i]} :: 0 <= i < w ==> r[i] == base + i
  {
    seq(w, (i: nat) => base + i)
  }

  /** `c` reads old nets only and drives the nets from `base` on. */
  ghost predicate Drives(c: Cell, base: nat) {
    Combinational(c.kind) && SlotsBelow(c.ins, base) && c.outs == FreshOuts(base, |c.outs|)
  }

  /** The output word of `c`, cut or filled up to its pins. */
  ghost function OutWord(c: Cell, v: Valuation): (o: seq<bool>)
    ensures |o| == |c.outs|
  {
    Resize(Outputs(c.kind, c.inPorts, Vals(c.ins, v), |c.outs|), |c.outs|)
  }

  /** Values for its outputs make a new cell hold whatever the old nets are. */
  lemma {:induction false} DrivenHolds(c: Cell, base: nat, v: Valuation) returns (w: Valuation)
    requires Drives(c, base)
    ensures AgreeBelow(base, v, w) && Holds(c, w)
  {
    var names := FreshNames(base, |c.outs|);
    w := Override(v, names, OutWord(c, v));
    OverrideAt(v, names, OutWord(c, v), base);
    assert Vals(c.ins, w) == Vals(c.ins, v);
    forall i | 0 <= i < |c.outs| && c.outs[i].Some? ensures w(c.outs[i].value) == OutWord(c, v)[i] {
      assert c.outs[i].value == names[i];
    }
  }

  /** A new cell at the end. */
  lemma {:induction false} AppendLowers(a: NL, b: NL, c: Cell)
    requires WellFormed(a) && Drives(c, a.nets)
    requires b == NL(a.cells + [c], a.nets + |c.outs|, a.zero, a.one, a.pad)
    ensures Lowers(a, b) && WellFormed(b)
  {
    forall v: Valuation | Consistent(b, v) ensures Consistent(a, v) {
      forall k | 0 <= k < |a.cells| ensures Holds(a.cells[k], v) { assert a.cells[k] == b.cells[k]; }
    }
    forall v: Valuation | Consistent(a, v) ensures Extends(a, b, v) {
      var w := DrivenHolds(c, a.nets, v);
      forall k | 0 <= k < |b.cells| ensures Holds(b.cells[k], w) {
        if k < |a.cells| { HoldsAgrees(a.cells[k], a.nets, v, w); }
      }
    }
    forall k | 0 <= k < |b.cells| ensures InRange(b.cells[k], b.nets) {
      if k < |a.cells| { assert b.cells[k] == a.cells[k] && InRange(a.cells[k], a.nets); }
    }
  }

  /** A cell that drove nothing gets other inputs, and outputs on fresh nets. */
  lemma {:induction false} GrowLowers(a: NL, b: NL, n: nat, c: Cell)
    requires WellFormed(a) && n < |a.cells| && Undriving(a.cells[n]) && Drives(c, a.nets)
    requires b == NL(a.cells[n := c], a.nets + |c.outs|, a.zero, a.one, a.pad)
    ensures Lowers(a, b) && WellFormed(b)
  {
    forall v: Valuation | Consistent(b, v) ensures Consistent(a, v) {
      forall k | 0 <= k < |a.cells| ensures Holds(a.cells[k], v) { if k != n { assert a.cells[k] == b.cells[k]; } }
    }
    forall v: Valuation | Consistent(a, v) ensures Extends(a, b, v) {
      var w := DrivenHolds(c, a.nets, v);
      forall k | 0 <= k < |b.cells| ensures Holds(b.cells[k], w) {
        if k != n {
          assert Holds(a.cells[k], v) && InRange(a.cells[k], a.nets);
          HoldsAgrees(a.cells[k], a.nets, v, w);
        }
      }
    }
    forall k | 0 <= k < |b.cells| ensures InRange(b.cells[k], b.nets) {
      if k != n { assert b.cells[k] == a.cells[k] && InRange(a.cells[k], a.nets); }
    }
  }

  /** An output pin that drove nothing gets a fresh net. */
  lemma {:induction false} NewOutLowers(a: NL, b: NL, o: nat, i: nat)
    requires WellFormed(a) && o < |a.cells| && i < |a.cells[o].outs| && a.cells[o].outs[i] == None
    requires Combinational(a.cells[o].kind)
    requires b == NL(SetOut(a.cells, o, i, Some(a.nets)), a.nets + 1, a.zero, a.one, a.pad)
    ensures Lowers(a, b) && WellFormed(b)
  {
    var c, c' := a.cells[o], b.cells[o];
    forall v: Valuation | Consistent(b, v) ensures Consistent(a, v) {
      forall k | 0 <= k < |a.cells| ensures Holds(a.cells[k], v) {
        assert Holds(b.cells[k], v);
        if k != o { assert a.cells[k] == b.cells[k]; } else { FewerOuts(c, c', i, v); }
      }
    }
    forall v: Valuation | Consistent(a, v) ensures Extends(a, b, v) {
      var word := Outputs(c.kind, c.inPorts, Vals(c.ins, v), |c.outs|);
      var w: Valuation := (e: nat) => if e == a.nets then i < |word| && word[i] else v(e);
      assert InRange(c, a.nets);
      assert Vals(c.ins, w) == Vals(c.ins, v);
      forall k | 0 <= k < |b.cells| ensures Holds(b.cells[k], w) {
        assert Holds(a.cells[k], v) && InRange(a.cells[k], a.nets);
        if k != o { HoldsAgrees(a.cells[k], a.nets, v, w); } else { MoreOuts(c, c', i, v, w, a.nets); }
      }
      assert AgreeBelow(a.nets, v, w);
    }
    forall k | 0 <= k < |b.cells| ensures InRange(b.cells[k], b.nets) { assert InRange(a.cells[k], a.nets); }
  }

  lemma {:induction false} FewerOuts(c: Cell, c': Cell, i: nat, v: Valuation)
    requires i < |c.outs| && c.outs[i] == None && c' == c.(outs := c'.outs) && |c'.outs| == |c.outs| && Holds(c', v)
    requires forall k :: 0 <= k < |c.outs| && k != i ==> c'.outs[k] == c.outs[k]
    ensures Holds(c, v)
  {
  }

  lemma {:induction false} MoreOuts(c: Cell, c': Cell, i: nat, v: Valuation, w: Valuation, nets: nat)
    requires i < |c.outs| && c' == c.(outs := c.outs[i := Some(nets)]) && Holds(c, v) && InRange(c, nets)
    requires Combinational(c.kind)
    requires AgreeBelow(nets, v, w) && Vals(c.ins, w) == Vals(c.ins, v)
    requires var word := Outputs(c.kind, c.inPorts, Vals(c.ins, v), |c.outs|); w(nets) == (i < |word| && word[i])
    ensures Holds(c', w)
  {
  }

  /** A cell that drives nothing, at the end. */
  lemma {:induction false} AppendDead(a: NL, b: NL, c: Cell)
    requires WellFormed(a) && Undriving(c) && SlotsBelow(c.ins, a.nets)
    requires b == NL(a.cells + [c], a.nets, a.zero, a.one, a.pad)
    ensures Lowers(a, b) && WellFormed(b)
  {
    forall v: Valuation | Consistent(b, v) ensures Consistent(a, v) {
      forall k | 0 <= k < |a.cells| ensures Holds(a.cells[k], v) { assert a.cells[k] == b.cells[k]; }
    }
    forall v: Valuation | Consistent(a, v) ensures Extends(a, b, v) {
      forall k | 0 <= k < |b.cells| ensures Holds(b.cells[k], v) {
        if k < |a.cells| { assert b.cells[k] == a.cells[k]; }
      }
      assert AgreeBelow(a.nets, v, v);
    }
    forall k | 0 <= k < |b.cells| ensures InRange(b.cells[k], b.nets) {
      if k < |a.cells| { assert b.cells[k] == a.cells[k] && InRange(a.cells[k], a.nets); }
    }
  }

  /** A cell that drives nothing may be rewired at will. */
  lemma {:induction false} RewireDead(a: NL, b: NL, n: nat, c: Cell)
    requires WellFormed(a) && n < |a.cells| && Undriving(a.cells[n]) && Undriving(c) && SlotsBelow(c.ins, a.nets)
    requires b == NL(a.cells[n := c], a.nets, a.zero, a.one, a.pad)
    ensures Lowers(a, b) && WellFormed(b)
  {
    forall v: Valuation ensures Consistent(b, v) <==> Consistent(a, v) {
      SameButDead(a, b, n, v);
    }
    forall v: Valuation | Consistent(a, v) ensures Extends(a, b, v) {
      assert AgreeBelow(a.nets, v, v);
    }
    forall k | 0 <= k < |b.cells| ensures InRange(b.cells[k], b.nets) {
      if k != n { assert b.cells[k] == a.cells[k] && InRange(a.cells[k], a.nets); }
    }
  }

  lemma {:induction false} SameButDead(a: NL, b: NL, n: nat, v: Valuation)
    requires n < |a.cells| == |b.cells| && Undriving(a.cells[n]) && Undriving(b.cells[n]) && a.zero == b.zero
    requires a.one == b.one
    requires forall k :: 0 <= k < |a.cells| && k != n ==> b.cells[k] == a.cells[k]
    ensures Consistent(b, v) <==> Consistent(a, v)
  {
    if Consistent(a, v) {
      forall k | 0 <= k < |b.cells| ensures Holds(b.cells[k], v) { if k != n { assert b.cells[k] == a.cells[k]; } }
    }
    if Consistent(b, v) {
      forall k | 0 <= k < |a.cells| ensures Holds(a.cells[k], v) { if k != n { assert b.cells[k] == a.cells[k]; } }
    }
  }
}
