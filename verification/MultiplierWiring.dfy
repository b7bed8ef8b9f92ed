/** Hooking up the adders of the array multiplier. */
module MultiplierWiring {
  import opened Wrappers
  import opened Bits
  import opened Semantics
  import opened Runs
  import opened Netlists
  import opened RippleCells
  import opened RippleBuild
  import opened Growth
  import opened MultiplierCells

  /** Where input slot `s` of adder `i` comes from: an output pin, or None for the zero net. */
  function Source(p: Array, a: nat, i: nat, s: nat): Option<(nat, nat)>
    requires i < |p.adders| && i + 1 < |p.pps| && a >= 1 && forall k :: 0 <= k < |p.pps| ==> |p.pps[k]| == a
  {
    if s < a + 1 then
      if i == 0 then (if s + 1 < a then Some((p.pps[0][s + 1], 0)) else None)
      else (if s < a then Some((p.adders[i - 1], s + 1)) else None)
    else if s - a - 1 < a then Some((p.pps[i + 1][s - a - 1], 0)) else None
  }

  /** The net a source stands for. */
  function NetAt(cells: seq<Cell>, src: Option<(nat, nat)>, zero: nat): Option<nat> {
    match src
    case None => Some(zero)
    case Some((o, t)) => if HasOut(cells, o, t) then cells[o].outs[t] else None
  }

  predicate Wide(p: Array, a: nat, b: nat) {
    a >= 1 && b >= 2 && |p.pps| == b && |p.adders| == b - 1 && forall k :: 0 <= k < |p.pps| ==> |p.pps[k]| == a
  }

  /** Adders before `i` are wired; adder `i` has `ja` pins of its first and `jb` pins of its second port. */
  predicate Before(a: nat, i: nat, ja: nat, jb: nat, k: nat, s: nat) {
    k < i || (k == i && (if s < a + 1 then s < ja else s - a - 1 < jb))
  }

  predicate GateLike(x: Cell, b: Option<nat>, a: Option<nat>) {
    |x.outs| == 1 && x == AndCell(b, a, x.outs[0])
  }

  predicate AdderLike(x: Cell, a: nat) {
    |x.ins| == 2 * a + 2 && |x.outs| == a + 1 && x == AdderCell(a + 1, x.ins, x.outs)
  }

  /** Shapes: gates with their operands, adders with their ports. */
  ghost predicate Shapes(cells: seq<Cell>, c: Cell, p: Array)
    requires MultNode(c)
  {
    && (forall k, l {:trigger p.pps[k][l]} :: HasPp(p, k, l) && k < WidthB(c) && l < WidthA(c) ==>
          p.pps[k][l] < |cells| && GateLike(cells[p.pps[k][l]], c.ins[WidthA(c) + k], c.ins[l]))
    && (forall k {:trigger p.adders[k]} :: 0 <= k < |p.adders| ==>
      p.adders[k] < |cells| && AdderLike(cells[p.adders[k]], WidthA(c)))
  }

  /** The slot is connected to its source. */
  ghost predicate SlotDone(cells: seq<Cell>, p: Array, a: nat, b: nat, zero: nat, k: nat, s: nat) {
    && Wide(p, a, b) && k < b - 1 && HasIn(cells, p.adders[k], s)
    && cells[p.adders[k]].ins[s].Some? && cells[p.adders[k]].ins[s] == NetAt(cells, Source(p, a, k, s), zero)
  }

  ghost predicate SlotOpen(cells: seq<Cell>, p: Array, k: nat, s: nat) {
    k < |p.adders| && HasIn(cells, p.adders[k], s) && cells[p.adders[k]].ins[s] == None
  }

  ghost predicate Silent(cells: seq<Cell>, x: nat) {
    x < |cells| && Undriving(cells[x])
  }

  /** The adders are wired so far. */
  ghost predicate AddersWired(cells: seq<Cell>, c: Cell, p: Array, zero: nat, i: nat, ja: nat, jb: nat)
    requires MultNode(c)
  {
    var a, b := WidthA(c), WidthB(c);
    && Wide(p, a, b) && Shapes(cells, c, p)
    && (forall k: nat, s: nat {:trigger SlotDone(cells, p, a, b, zero, k, s)} ::
      k < b - 1 && s < 2 * a + 2 && Before(a, i, ja, jb, k, s) ==> SlotDone(cells, p, a, b, zero, k, s))
    && (forall k: nat, s: nat {:trigger SlotOpen(cells, p, k, s)} ::
      k < b - 1 && s < 2 * a + 2 && !Before(a, i, ja, jb, k, s) ==> SlotOpen(cells, p, k, s))
    && (forall k {:trigger p.adders[k]} :: i <= k < b - 1 ==> Silent(cells, p.adders[k]))
    && LowOpen(cells, p)
  }

  /** The outputs no adder takes: the lowest partial product and the low bit of every adder. */
  ghost predicate LowOpen(cells: seq<Cell>, p: Array) {
    && p.pps != [] && p.pps[0] != [] && HasOut(cells, p.pps[0][0], 0) && cells[p.pps[0][0]].outs[0] == None
    && forall k {:trigger p.adders[k]} :: 0 <= k < |p.adders| ==>
      HasOut(cells, p.adders[k], 0) && cells[p.adders[k]].outs[0] == None
  }

  /** Slot (x, s) was filled; outputs only gained nets, and only at the source. */
  ghost predicate Filled(before: seq<Cell>, after: seq<Cell>, x: nat, s: nat, src: Option<(nat, nat)>) {
    && |before| == |after|
    && (forall k {:trigger after[k]} :: 0 <= k < |before| ==>
          after[k] == before[k].(ins := after[k].ins, outs := after[k].outs) && |after[k].ins| == |before[k].ins|
            && |after[k].outs| == |before[k].outs|)
    && (forall k, t {:trigger after[k].ins[t]} ::
      0 <= k < |before| && 0 <= t < |before[k].ins| && !(k == x && t == s) ==> after[k].ins[t] == before[k].ins[t])
    && (forall k, t {:trigger after[k].outs[t]} ::
      0 <= k < |before| && 0 <= t < |before[k].outs| && src != Some((k, t)) ==> after[k].outs[t] == before[k].outs[t])
    && (src.Some? ==>
      HasOut(before, src.value.0, src.value.1) && (before[src.value.0].outs[src.value.1].Some? ==>
        after[src.value.0].outs[src.value.1] == before[src.value.0].outs[src.value.1]))
  }

  /** The connection as a change of the netlist `a`, whose cell `x` drives nothing. */
  lemma {:induction false} ConnectLowers(a: NL, b: NL, o: nat, t: nat, x: nat, s: nat, e: nat)
    requires WellFormed(a) && HasOut(a.cells, o, t) && HasIn(a.cells, x, s) && o != x && Undriving(a.cells[x])
    requires Combinational(a.cells[o].kind)
    requires a.cells[o].outs[t].Some? ==>
      e == a.cells[o].outs[t].value && b == a.(cells := SetIn(a.cells, x, s, Some(e)))
    requires a.cells[o].outs[t].None? ==>
      e == a.nets && b == a.(cells := SetIn(SetOut(a.cells, o, t, Some(e)), x, s, Some(e)), nets := a.nets + 1)
    ensures Lowers(a, b) && WellFormed(b)
  {
    assert InRange(a.cells[x], a.nets) && InRange(a.cells[o], a.nets);
    if a.cells[o].outs[t].Some? {
      RewireDead(a, b, x, b.cells[x]);
    } else {
      var m := a.(cells := SetOut(a.cells, o, t, Some(e)), nets := a.nets + 1);
      NewOutLowers(a, m, o, t);
      RewireDead(m, b, x, b.cells[x]);
      LowersTransitive(a, m, b);
    }
  }

  lemma {:induction false} ZeroLowers(a: NL, b: NL, x: nat, s: nat)
    requires WellFormed(a) && HasIn(a.cells, x, s) && Undriving(a.cells[x])
    requires b == a.(cells := SetIn(a.cells, x, s, Some(a.zero)))
    ensures Lowers(a, b) && WellFormed(b)
  {
    assert InRange(a.cells[x], a.nets);
    RewireDead(a, b, x, b.cells[x]);
  }

  /** One input pin of an adder. */
  method FillSlot(g: Netlist, n: nat, x: nat, s: nat, src: Option<(nat, nat)>, ghost c: Cell)
    requires g.Ready() && n < |g.cells| && x != n && HasIn(g.cells, x, s) && g.cells[x].ins[s] == None
    requires Undriving(g.cells[x])
    requires src.Some? ==>
      HasOut(g.cells, src.value.0, src.value.1) && src.value.0 != x && src.value.0 != n
        && Combinational(g.cells[src.value.0].kind)
    requires WellFormed(Virtual(g.Meaning(), n, c))
    requires g.fence.floor <= x
    modifies g
    ensures g.Ready() && g.Steady(old(g.fence), old(g.fenced), old(g.tidy)) && |old(g.nets)| <= |g.nets|
    ensures Filled(old(g.cells), g.cells, x, s, src)
    ensures g.cells[x].ins[s].Some? && g.cells[x].ins[s] == NetAt(g.cells, src, g.zeroNet)
    ensures Lowers(Virtual(old(g.Meaning()), n, c), Virtual(g.Meaning(), n, c))
    ensures WellFormed(Virtual(g.Meaning(), n, c))
  {
    hide Lowers, Netlist.Valid, Netlist.Ready, Consistent, InRange, WellFormed;
    ghost var start := g.Meaning();
    match src
    case None =>
      g.AttachZero(x, s);
      assert Virtual(g.Meaning(), n, c).cells == SetIn(Virtual(start, n, c).cells, x, s, Some(start.zero));
      ZeroLowers(Virtual(start, n, c), Virtual(g.Meaning(), n, c), x, s);
    case Some((o, t)) =>
      var e := g.ConnectNodes(o, t, x, s);
      VirtualConnect(start, g.Meaning(), n, c, o, t, x, s, e);
      ConnectLowers(Virtual(start, n, c), Virtual(g.Meaning(), n, c), o, t, x, s, e);
  }

  lemma {:induction false} VirtualConnect(a: NL, b: NL, n: nat, c: Cell, o: nat, t: nat, x: nat, s: nat, e: nat)
    requires n < |a.cells| && HasOut(a.cells, o, t) && HasIn(a.cells, x, s) && o != x && o != n && x != n
    requires a.cells[o].outs[t].Some? ==>
      e == a.cells[o].outs[t].value && b == a.(cells := SetIn(a.cells, x, s, Some(e)))
    requires a.cells[o].outs[t].None? ==>
      e == a.nets && b == a.(cells := SetIn(SetOut(a.cells, o, t, Some(e)), x, s, Some(e)), nets := a.nets + 1)
    ensures var a', b' := Virtual(a, n, c), Virtual(b, n, c);
      && HasOut(a'.cells, o, t) && HasIn(a'.cells, x, s) && a'.cells[o] == a.cells[o] && a'.cells[x] == a.cells[x]
      && (a.cells[o].outs[t].Some? ==> b' == a'.(cells := SetIn(a'.cells, x, s, Some(e))))
      && (a.cells[o].outs[t].None? ==>
        b' == a'.(cells := SetIn(SetOut(a'.cells, o, t, Some(e)), x, s, Some(e)), nets := a'.nets + 1))
  {
    var a' := Virtual(a, n, c);
    if a.cells[o].outs[t].Some? {
      assert SetIn(a.cells, x, s, Some(e))[n := c] == SetIn(a'.cells, x, s, Some(e));
    } else {
      assert SetIn(SetOut(a.cells, o, t, Some(e)), x, s, Some(e))[n := c]
        == SetIn(SetOut(a'.cells, o, t, Some(e)), x, s, Some(e));
    }
  }

  lemma {:induction false} SourceIs(p: Array, a: nat, b: nat, c0: nat, top: nat, i: nat, s: nat)
    requires Wide(p, a, b) && IdsApart(p, c0, top) && i < b - 1 && s < 2 * a + 2 && Source(p, a, i, s).Some?
    ensures var (o, t) := Source(p, a, i, s).value;
      && c0 <= o < top && (o, t) != (p.pps[0][0], 0)
      && (forall k {:trigger p.adders[k]} :: 0 <= k < |p.adders| ==> (o, t) != (p.adders[k], 0))
      && (forall k {:trigger p.adders[k]} :: i <= k < |p.adders| ==> o != p.adders[k])
      && (if s < a + 1 && i > 0 then o == p.adders[i - 1] && t < a + 1
          else t == 0 && exists k, l {:trigger p.pps[k][l]} :: HasPp(p, k, l) && k < b && l < a && o == p.pps[k][l])
  {
    assert HasPp(p, 0, 0);
    if s < a + 1 {
      if i == 0 { assert HasPp(p, 0, s + 1); assert p.pps[0][s + 1] != p.pps[0][0]; }
    } else {
      assert HasPp(p, i + 1, s - a - 1);
      assert p.pps[i + 1][s - a - 1] != p.pps[0][0];
    }
  }

  lemma {:induction false} ShapesKept(before: seq<Cell>, after: seq<Cell>, c: Cell, p: Array, c0: nat, top: nat,
                                      i: nat, s: nat, src: Option<(nat, nat)>)
    requires MultNode(c) && Shapes(before, c, p) && IdsApart(p, c0, top) && i < |p.adders|
    requires Filled(before, after, p.adders[i], s, src)
    ensures Shapes(after, c, p)
  {
    forall k: int, l: int {:trigger p.pps[k][l]} | HasPp(p, k, l) && k < WidthB(c) && l < WidthA(c)
      ensures GateLike(after[p.pps[k][l]], c.ins[WidthA(c) + k], c.ins[l])
    {
      var x := p.pps[k][l];
      assert GateLike(before[x], c.ins[WidthA(c) + k], c.ins[l]);
      assert x != p.adders[i];
      assert after[x].ins[0] == before[x].ins[0] && after[x].ins[1] == before[x].ins[1];
      assert after[x].ins == before[x].ins;
      assert after[x].outs == [after[x].outs[0]];
    }
    forall k {:trigger p.adders[k]} | 0 <= k < |p.adders| ensures AdderLike(after[p.adders[k]], WidthA(c)) {
      assert AdderLike(before[p.adders[k]], WidthA(c));
    }
  }

  /** A filled slot stays filled: its pin is untouched and its source, already on a net, keeps that net. */
  lemma {:induction false} SlotKept(before: seq<Cell>, after: seq<Cell>, p: Array, a: nat, b: nat, zero: nat, i: nat,
                                    s: nat, k: nat, l: nat)
    requires SlotDone(before, p, a, b, zero, k, l) && i < |p.adders|
    requires Filled(before, after, p.adders[i], s, Source(p, a, i, s))
    requires p.adders[k] != p.adders[i] || l != s
    ensures SlotDone(after, p, a, b, zero, k, l)
  {
    assert after[p.adders[k]].ins[l] == before[p.adders[k]].ins[l];
    var src := Source(p, a, k, l);
    if src.Some? {
      var (o, t) := src.value;
      assert HasOut(before, o, t) && before[o].outs[t].Some?;
      assert after[o].outs[t] == before[o].outs[t];
    }
  }

  lemma {:induction false} StaySilent(before: seq<Cell>, after: seq<Cell>, p: Array, a: nat, b: nat, c0: nat, top: nat,
                                      i: nat, s: nat)
    requires Wide(p, a, b) && IdsApart(p, c0, top) && i < b - 1 && s < 2 * a + 2
    requires Filled(before, after, p.adders[i], s, Source(p, a, i, s))
    requires (forall k {:trigger p.adders[k]} :: i <= k < b - 1 ==> Silent(before, p.adders[k])) && LowOpen(before, p)
    ensures (forall k {:trigger p.adders[k]} :: i <= k < b - 1 ==> Silent(after, p.adders[k])) && LowOpen(after, p)
  {
    var src := Source(p, a, i, s);
    if src.Some? { SourceIs(p, a, b, c0, top, i, s); }
    forall k {:trigger p.adders[k]} | i <= k < b - 1 ensures Silent(after, p.adders[k]) {
      var x := p.adders[k];
      assert Silent(before, x) && after[x] == before[x].(ins := after[x].ins, outs := after[x].outs);
      forall t | 0 <= t < |before[x].outs| ensures after[x].outs[t] == before[x].outs[t] {}
    }
    forall k {:trigger p.adders[k]} | 0 <= k < |p.adders|
      ensures HasOut(after, p.adders[k], 0) && after[p.adders[k]].outs[0] == None {
      assert after[p.adders[k]].outs[0] == before[p.adders[k]].outs[0];
    }
    assert after[p.pps[0][0]].outs[0] == before[p.pps[0][0]].outs[0];
  }

  lemma {:induction false} FilledStep(before: seq<Cell>, after: seq<Cell>, c: Cell, p: Array, c0: nat, zero: nat,
                                      i: nat, ja: nat, jb: nat, s: nat, ja': nat, jb': nat)
    requires MultNode(c) && IdsApart(p, c0, |before|) && AddersWired(before, c, p, zero, i, ja, jb) && i < |p.adders|
    requires ja <= WidthA(c) + 1 && jb <= WidthA(c) + 1
    requires (s == ja < WidthA(c) + 1 && ja' == ja + 1 && jb' == jb)
      || (s == WidthA(c) + 1 + jb && jb < WidthA(c) + 1 && ja' == ja && jb' == jb + 1)
    requires Filled(before, after, p.adders[i], s, Source(p, WidthA(c), i, s))
    requires SlotDone(after, p, WidthA(c), WidthB(c), zero, i, s)
    ensures AddersWired(after, c, p, zero, i, ja', jb')
  {
    var a, b := WidthA(c), WidthB(c);
    ShapesKept(before, after, c, p, c0, |before|, i, s, Source(p, a, i, s));
    StaySilent(before, after, p, a, b, c0, |before|, i, s);
    forall k: nat, l: nat {:trigger SlotDone(after, p, a, b, zero, k, l)}
      | k < b - 1 && l < 2 * a + 2 && Before(a, i, ja', jb', k, l)
      ensures SlotDone(after, p, a, b, zero, k, l)
    {
      if k != i || l != s {
        assert SlotDone(before, p, a, b, zero, k, l);
        assert k < i ==> p.adders[k] != p.adders[i];
        SlotKept(before, after, p, a, b, zero, i, s, k, l);
      }
    }
    forall k: nat, l: nat {:trigger SlotOpen(after, p, k, l)} | k < b - 1 && l < 2 * a + 2
      && !Before(a, i, ja', jb', k, l) ensures SlotOpen(after, p, k, l) {
      assert SlotOpen(before, p, k, l);
      assert k > i ==> p.adders[k] != p.adders[i];
      assert after[p.adders[k]].ins[l] == before[p.adders[k]].ins[l];
    }
  }

  /** Other cells than the array's are left alone. */
  ghost predicate OffArray(before: seq<Cell>, after: seq<Cell>, c0: nat) {
    |before| == |after| && forall k {:trigger after[k]} :: 0 <= k < |before| && k < c0 ==> after[k] == before[k]
  }

  lemma {:induction false} FilledOff(before: seq<Cell>, after: seq<Cell>, x: nat, s: nat, src: Option<(nat, nat)>,
                                     c0: nat)
    requires Filled(before, after, x, s, src) && x >= c0 && (src.Some? ==> src.value.0 >= c0)
    ensures OffArray(before, after, c0)
  {
    forall k {:trigger after[k]} | 0 <= k < |before| && k < c0 ensures after[k] == before[k] {
      forall t {:trigger after[k].ins[t]} | 0 <= t < |before[k].ins| ensures after[k].ins[t] == before[k].ins[t] {}
      forall t {:trigger after[k].outs[t]} | 0 <= t < |before[k].outs| ensures after[k].outs[t] == before[k].outs[t] {}
      assert after[k].ins == before[k].ins && after[k].outs == before[k].outs;
    }
  }

  /** One slot of adder `i`. */
  method FillNext(g: Netlist, n: nat, p: Array, a: nat, b: nat, i: nat, s: nat, ghost c: Cell, ghost c0: nat,
                  ghost ja: nat, ghost jb: nat, ghost ja': nat, ghost jb': nat)
    requires g.Ready() && n < c0 && MultNode(c) && a == WidthA(c) && b == WidthB(c) && IdsApart(p, c0, |g.cells|)
    requires i < b - 1
    requires AddersWired(g.cells, c, p, g.zeroNet, i, ja, jb) && ja <= a + 1 && jb <= a + 1
    requires (s == ja < a + 1 && ja' == ja + 1 && jb' == jb)
      || (s == a + 1 + jb && jb < a + 1 && ja' == ja && jb' == jb + 1)
    requires WellFormed(Virtual(g.Meaning(), n, c)) && n < |g.cells|
    requires g.fence.floor <= c0
    modifies g
    ensures g.Ready() && g.Steady(old(g.fence), old(g.fenced), old(g.tidy)) && |old(g.nets)| <= |g.nets|
    ensures OffArray(old(g.cells), g.cells, c0)
    ensures AddersWired(g.cells, c, p, g.zeroNet, i, ja', jb')
    ensures Lowers(Virtual(old(g.Meaning()), n, c), Virtual(g.Meaning(), n, c))
    ensures WellFormed(Virtual(g.Meaning(), n, c))
  {
    ghost var before := g.cells;
    var x, src := p.adders[i], Source(p, a, i, s);
    assert SlotOpen(g.cells, p, i, s) && Silent(g.cells, x);
    SourceReady(g.cells, c, p, c0, i, s);
    FillSlot(g, n, x, s, src, c);
    FilledOff(before, g.cells, x, s, src, c0);
    FilledStep(before, g.cells, c, p, c0, g.zeroNet, i, ja, jb, s, ja', jb');
  }

  lemma {:induction false} SourceReady(cells: seq<Cell>, c: Cell, p: Array, c0: nat, i: nat, s: nat)
    requires MultNode(c) && Wide(p, WidthA(c), WidthB(c)) && Shapes(cells, c, p) && IdsApart(p, c0, |cells|)
    requires i < |p.adders| && s < 2 * WidthA(c) + 2
    ensures var src := Source(p, WidthA(c), i, s);
      src.Some? ==> HasOut(cells, src.value.0, src.value.1) && src.value.0 != p.adders[i] && src.value.0 >= c0 && Combinational(cells[src.value.0].kind)
  {
    if Source(p, WidthA(c), i, s).Some? { SourceIs(p, WidthA(c), WidthB(c), c0, |cells|, i, s); }
  }
}
