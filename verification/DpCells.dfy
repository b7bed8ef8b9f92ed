/** The cells each stage of split_dp_memory_depth has left behind. */
module DpCells {
  import opened Wrappers
  import opened Bits
  import opened Semantics
  import opened Runs
  import opened Netlists
  import opened RippleCells
  import opened RippleBuild
  import opened MemoryPorts
  import opened BankSplit
  import opened SpSplit
  import opened DpSplit
  import opened MemoryDepth
  import opened DpDepth

  /** The pins of a bank with its enables replaced by nets `e1` and `e2`. */
  function Gated(ins: seq<Option<nat>>, s: Slots, e1: nat, e2: nat): (r: seq<Option<nat>>)
    requires (s.w1 ==> s.we1 < |ins|) && (s.w2 ==> s.we2 < |ins|)
    ensures |r| == |ins|
  {
    var r1 := if s.w1 then ins[s.we1 := Some(e1)] else ins;
    if s.w2 then r1[s.we2 := Some(e2)] else r1
  }

  lemma {:induction false} UppersAre(cells: seq<Cell>, n: nat, h: nat, s: Slots, b1: Option<nat>, b2: Option<nat>,
                                     e: nat, r: seq<Cell>)
    requires SlotsIn(cells, n, h, s) && r == AfterUppers(cells, n, s, b1, b2, e)
    ensures |r| == |cells| + One(s.w1) + One(s.w2)
    ensures forall k {:trigger r[k]} :: 0 <= k < |cells| && k != n ==> r[k] == cells[k]
    ensures r[n] == cells[n].(ins := Gated(cells[n].ins, s, e, e + One(s.w1)))
    ensures s.w1 ==> r[|cells|] == And2(b1, cells[n].ins[s.we1], e)
    ensures s.w2 ==> r[|cells| + One(s.w1)] == And2(b2, cells[n].ins[s.we2], e + One(s.w1))
  {
    var r1 := AfterFirst(cells, n, s, b1, e);
    assert forall k {:trigger r1[k]} :: 0 <= k < |cells| && k != n ==> r1[k] == cells[k];
    assert r1[n] == cells[n].(ins := if s.w1 then cells[n].ins[s.we1 := Some(e)] else cells[n].ins);
  }

  lemma {:induction false} LowersAre(cells: seq<Cell>, h: nat, s: Slots, b1: Option<nat>, b2: Option<nat>,
                                     x1: Option<nat>, x2: Option<nat>, e: nat, r: seq<Cell>)
    requires h < |cells| && (s.w1 ==> HasIn(cells, h, s.we1)) && (s.w2 ==> HasIn(cells, h, s.we2))
    requires r == AfterLowers(cells, h, s, b1, b2, x1, x2, e)
    ensures |r| == |cells| + 2 * One(s.w1) + 2 * One(s.w2)
    ensures forall k {:trigger r[k]} :: 0 <= k < |cells| && k != h ==> r[k] == cells[k]
    ensures r[h] == cells[h].(ins := Gated(cells[h].ins, s, e + 1, e + 2 * One(s.w1) + 1))
    ensures s.w1 ==> r[|cells|] == NotCell(b1, e) && r[|cells| + 1] == And2(Some(e), x1, e + 1)
    ensures s.w2 ==> var k, f := |cells| + 2 * One(s.w1), e + 2 * One(s.w1);
      r[k] == NotCell(b2, f) && r[k + 1] == And2(Some(f), x2, f + 1)
  {
    var r1 := AfterFirstLower(cells, h, s, b1, x1, e);
    assert forall k {:trigger r1[k]} :: 0 <= k < |cells| && k != h ==> r1[k] == cells[k];
    assert r1[h] == cells[h].(ins := if s.w1 then cells[h].ins[s.we1 := Some(e + 1)] else cells[h].ins);
  }

  /** Rewiring the enables through their slots. */
  lemma {:induction false} EnabledIs(c: Cell, d: Cell, s: Slots, base: nat, upper: bool)
    requires PortShape(d) && SlotsOf(d, s) && HasRole(c, We1) == s.w1 && HasRole(c, We2) == s.w2
    ensures (s.w1 ==> s.we1 < |d.ins|) && (s.w2 ==> s.we2 < |d.ins|)
    ensures Enabled2(c, d, base, upper)
      == d.(ins := Gated(d.ins, s, DpNet(c, base, GateTag(upper, 0)), DpNet(c, base, GateTag(upper, 1))))
  {
    if s.w1 { PortSlots(d, FindPort(d.inPorts, We1)); }
    if s.w2 { PortSlots(d, FindPort(d.inPorts, We2)); }
  }

  /** What the slots of the shortened memory hold. */
  lemma {:induction false} CutSlots(c: Cell, s: Slots)
    requires DpSplittable(c) && SlotsOf(Cut(c), s)
    ensures var d := Cut(c);
      && s.w1 == HasRole(c, We1) && s.w2 == HasRole(c, We2) && s.has2 == HasRole(c, Addr2) && (s.w2 ==> s.has2)
      && AllConnected(d.ins) && s.clk < |d.ins| && d.ins[s.clk] == ClockOf(c)
      && (s.w1 ==> s.we1 < |d.ins| && d.ins[s.we1] == WeBit(c, 0) && s.we1 != s.clk)
      && (s.w2 ==> s.we2 < |d.ins| && d.ins[s.we2] == WeBit(c, 1) && s.we2 != s.clk)
      && (s.w1 && s.w2 ==> s.we1 != s.we2)
  {
    hide Offset;
    var d := Cut(c);
    CutRole(c, We1);
    CutRole(c, We2);
    CutRole(c, Clk);
    CutRole(c, Addr2);
    SlotValue(d, Clk, s.clk);
    if s.w1 {
      SlotValue(d, We1, s.we1);
      SlotsDiffer(d, We1, s.we1, Clk, s.clk);
    }
    if s.w2 {
      SlotValue(d, We2, s.we2);
      SlotsDiffer(d, We2, s.we2, Clk, s.clk);
    }
    if s.w1 && s.w2 { SlotsDiffer(d, We1, s.we1, We2, s.we2); }
  }

  lemma {:induction false} SlotValue(d: Cell, role: Role, at: nat)
    requires PortShape(d) && SlotAt(d, role, true, at)
    ensures at < |d.ins| && d.ins[at] == First(RoleSlots(d, role))
  {
    PortSlots(d, FindPort(d.inPorts, role));
  }

  lemma {:induction false} SlotsDiffer(d: Cell, r1: Role, at1: nat, r2: Role, at2: nat)
    requires PortShape(d) && SlotAt(d, r1, true, at1) && SlotAt(d, r2, true, at2) && r1 != r2
    ensures at1 != at2
  {
    var k1, k2 := FindPort(d.inPorts, r1), FindPort(d.inPorts, r2);
    if k1 < k2 { OffsetOrder(d.inPorts, k1, k2); } else { OffsetOrder(d.inPorts, k2, k1); }
  }

  predicate EnableTag(tag: Tag) { tag.GateS? || tag.Inv? || tag.GateH? }

  ghost predicate GateAt(c: Cell, cells: seq<Cell>, h: nat, base: nat, tag: Tag) {
    GateReady(c, DpPlan(c, base), tag) && CellIs(cells, DpCell(c, h, tag), GateCell(c, DpPlan(c, base), tag))
  }

  /** Both banks with their gated enables. */
  ghost predicate EnablesBuilt(a: NL, cells: seq<Cell>, n: nat)
    requires n < |a.cells| && DpSplittable(a.cells[n])
  {
    var c, h := a.cells[n], |a.cells|;
    && |cells| == h + 1 + Gates(c) && OtherCells(a.cells, cells, n)
    && cells[n] == Enabled2(c, Cut(c), a.nets, true)
    && cells[h] == Enabled2(c, Cut(c), a.nets, false).(outs := Nones(|c.outs|))
    && forall tag :: EnableTag(tag) && DpHas(c, tag) ==> GateAt(c, cells, h, a.nets, tag)
  }

  /** The chain of steps that gates the enables: `cells`, then `up`, then `done`. */
  ghost predicate Gating(cells: seq<Cell>, up: seq<Cell>, done: seq<Cell>, n: nat, h: nat, s: Slots, b1: Option<nat>,
                         b2: Option<nat>, x1: Option<nat>, x2: Option<nat>, e: nat) {
    && SlotsIn(cells, n, h, s) && up == AfterUppers(cells, n, s, b1, b2, e)
    && h < |up| && (s.w1 ==> HasIn(up, h, s.we1)) && (s.w2 ==> HasIn(up, h, s.we2))
    && done == AfterLowers(up, h, s, b1, b2, x1, x2, e + One(s.w1) + One(s.w2))
  }

  lemma {:induction false} GatingCells(cells: seq<Cell>, up: seq<Cell>, done: seq<Cell>, n: nat, h: nat, s: Slots,
                                       b1: Option<nat>, b2: Option<nat>, x1: Option<nat>, x2: Option<nat>, e: nat)
    requires Gating(cells, up, done, n, h, s, b1, b2, x1, x2, e) && h < |cells|
    ensures |done| == |cells| + 3 * One(s.w1) + 3 * One(s.w2)
    ensures forall k {:trigger done[k]} :: 0 <= k < |cells| && k != n && k != h ==> done[k] == cells[k]
    ensures done[n] == cells[n].(ins := Gated(cells[n].ins, s, e, e + One(s.w1)))
    ensures var f := e + One(s.w1) + One(s.w2); done[h] == cells[h].(ins := Gated(cells[h].ins, s, f + 1, f + 2 * One(s.w1) + 1))
  {
    UppersAre(cells, n, h, s, b1, b2, e, up);
    LowersAre(up, h, s, b1, b2, x1, x2, e + One(s.w1) + One(s.w2), done);
    forall k {:trigger done[k]} | 0 <= k < |cells| && k != n && k != h ensures done[k] == cells[k] {
      assert up[k] == cells[k];
    }
    assert done[n] == up[n] && up[h] == cells[h];
  }

  lemma {:induction false} GatingGates(cells: seq<Cell>, up: seq<Cell>, done: seq<Cell>, n: nat, h: nat, s: Slots,
                                       b1: Option<nat>, b2: Option<nat>,
                                       x1: Option<nat>, x2: Option<nat>, e: nat, k: nat)
    requires Gating(cells, up, done, n, h, s, b1, b2, x1, x2, e) && h < |cells| && k == |cells|
    requires (s.w1 ==> x1 == cells[n].ins[s.we1]) && (s.w2 ==> x2 == cells[n].ins[s.we2])
    ensures s.w1 ==> FirstGates(done, k, s, b1, x1, e)
    ensures s.w2 ==> SecondGates(done, k, s, b2, x2, e)
  {
    UppersAre(cells, n, h, s, b1, b2, e, up);
    LowersAre(up, h, s, b1, b2, x1, x2, e + One(s.w1) + One(s.w2), done);
    if s.w1 { assert done[k] == up[k]; }
    if s.w2 { assert done[k + One(s.w1)] == up[k + One(s.w1)]; }
  }

  /** The gates of the first enable; `k` is the first of all gates, `e` the first net. */
  ghost predicate FirstGates(cells: seq<Cell>, k: nat, s: Slots, b: Option<nat>, x: Option<nat>, e: nat) {
    var j := One(s.w1) + One(s.w2);
    && CellIs(cells, k, And2(b, x, e)) && CellIs(cells, k + j, NotCell(b, e + j))
    && CellIs(cells, k + j + 1, And2(Some(e + j), x, e + j + 1))
  }

  ghost predicate SecondGates(cells: seq<Cell>, k: nat, s: Slots, b: Option<nat>, x: Option<nat>, e: nat) {
    var i := One(s.w1);
    var j := i + One(s.w2) + 2 * i;
    && CellIs(cells, k + i, And2(b, x, e + i)) && CellIs(cells, k + j, NotCell(b, e + j))
    && CellIs(cells, k + j + 1, And2(Some(e + j), x, e + j + 1))
  }

  lemma {:induction false} FirstGateAt(c: Cell, cells: seq<Cell>, h: nat, e: nat, s: Slots, b: Option<nat>,
                                       x: Option<nat>, k: nat, tag: Tag)
    requires c.kind.DpMemory? && s.w1 == HasRole(c, We1) && s.w2 == HasRole(c, We2) && k == h + 1 && EnableTag(tag)
    requires DpHas(c, tag) && tag.k == 0
    requires b == AddrBit(c, 0) && x == WeBit(c, 0) && FirstGates(cells, k, s, b, x, e)
    ensures GateAt(c, cells, h, e, tag)
  {
  }

  lemma {:induction false} SecondGateAt(c: Cell, cells: seq<Cell>, h: nat, e: nat, s: Slots, b: Option<nat>,
                                        x: Option<nat>, k: nat, tag: Tag)
    requires c.kind.DpMemory? && s.w1 == HasRole(c, We1) && s.w2 == HasRole(c, We2) && k == h + 1 && EnableTag(tag)
    requires DpHas(c, tag) && tag.k == 1
    requires b == AddrBit(c, 1) && x == WeBit(c, 1) && SecondGates(cells, k, s, b, x, e)
    ensures GateAt(c, cells, h, e, tag)
  {
  }

  /** The gates of the enables in the order of their creation. */
  lemma {:induction false} GatesAre(c: Cell, cells: seq<Cell>, h: nat, e: nat, s: Slots, b1: Option<nat>,
                                    b2: Option<nat>, x1: Option<nat>, x2: Option<nat>, k: nat)
    requires c.kind.DpMemory? && s.w1 == HasRole(c, We1) && s.w2 == HasRole(c, We2) && k == h + 1
    requires b1 == AddrBit(c, 0) && b2 == AddrBit(c, 1) && (s.w1 ==> x1 == WeBit(c, 0)) && (s.w2 ==> x2 == WeBit(c, 1))
    requires s.w1 ==> FirstGates(cells, k, s, b1, x1, e)
    requires s.w2 ==> SecondGates(cells, k, s, b2, x2, e)
    ensures forall tag :: EnableTag(tag) && DpHas(c, tag) ==> GateAt(c, cells, h, e, tag)
  {
    forall tag | EnableTag(tag) && DpHas(c, tag) ensures GateAt(c, cells, h, e, tag) {
      if tag.k == 0 {
        FirstGateAt(c, cells, h, e, s, b1, x1, k, tag);
      } else {
        SecondGateAt(c, cells, h, e, s, b2, x2, k, tag);
      }
    }
  }

  lemma {:induction false} EnablesAre(a: NL, cells1: seq<Cell>, n: nat, h: nat, d: Cell, s: Slots, b1: Option<nat>,
                                      b2: Option<nat>, x1: Option<nat>, x2: Option<nat>,
                                      e: nat, up: seq<Cell>, cells2: seq<Cell>)
    requires n < |a.cells| && DpSplittable(a.cells[n]) && d == Cut(a.cells[n]) && h == |a.cells| && e == a.nets
    requires cells1 == a.cells[n := d] + [d.(outs := Nones(|a.cells[n].outs|))] && SlotsOf(d, s)
    requires b1 == AddrBit(a.cells[n], 0) && b2 == AddrBit(a.cells[n], 1)
    requires (s.w1 ==> x1 == WeBit(a.cells[n], 0)) && (s.w2 ==> x2 == WeBit(a.cells[n], 1))
    requires Gating(cells1, up, cells2, n, h, s, b1, b2, x1, x2, e)
    ensures EnablesBuilt(a, cells2, n)
  {
    var c, k := a.cells[n], |cells1|;
    CutSlots(c, s);
    assert cells1[n] == d;
    GatingGates(cells1, up, cells2, n, h, s, b1, b2, x1, x2, e, k);
    GatesAre(c, cells2, h, e, s, b1, b2, x1, x2, k);
    EnabledBanks(a, cells1, n, h, d, s, b1, b2, x1, x2, e, up, cells2);
  }

  lemma {:induction false} EnabledBanks(a: NL, cells1: seq<Cell>, n: nat, h: nat, d: Cell, s: Slots, b1: Option<nat>,
                                        b2: Option<nat>, x1: Option<nat>, x2: Option<nat>,
                                        e: nat, up: seq<Cell>, cells2: seq<Cell>)
    requires n < |a.cells| && PortShape(d) && h == |a.cells| && e == a.nets
    requires cells1 == a.cells[n := d] + [d.(outs := Nones(|a.cells[n].outs|))] && SlotsOf(d, s)
    requires s.w1 == HasRole(a.cells[n], We1) && s.w2 == HasRole(a.cells[n], We2)
    requires Gating(cells1, up, cells2, n, h, s, b1, b2, x1, x2, e)
    ensures |cells2| == h + 1 + Gates(a.cells[n]) && OtherCells(a.cells, cells2, n)
    ensures cells2[n] == Enabled2(a.cells[n], d, e, true)
    ensures cells2[h] == Enabled2(a.cells[n], d, e, false).(outs := Nones(|a.cells[n].outs|))
  {
    hide FindPort, Offset, Gating;
    var c := a.cells[n];
    GatingCells(cells1, up, cells2, n, h, s, b1, b2, x1, x2, e);
    EnabledIs(c, d, s, e, true);
    EnabledIs(c, d, s, e, false);
    forall k {:trigger a.cells[k]} | 0 <= k < h && k != n ensures cells2[k] == a.cells[k] {
      assert cells2[k] == cells1[k];
    }
  }

  // ----- registers and output muxes -----

  /** Is this gate there once the first `w` outputs are done? */
  predicate TagPlaced(c: Cell, w: nat, tag: Tag) {
    && DpHas(c, tag) && !IsOutTag(tag)
    && match tag
       case Reg(k) => if k == 0 then w > 0 else w > D(c)
       case Nots(i) => i < w
       case _ => true
  }

  /** Outputs of a bank once the first `w` are done. */
  function OutSlots(c: Cell, base: nat, upper: bool, w: nat): (r: seq<Option<nat>>)
    ensures |r| == |c.outs|
    ensures forall i {:trigger r[i]} :: 0 <= i < |r| ==>
      r[i] == if i < w then Some(DpNet(c, base, OutTag(upper, i))) else if upper then c.outs[i] else None
  {
    seq(|c.outs|, (i: nat) requires i < |c.outs| => if i < w then Some(DpNet(c, base, OutTag(upper, i)))
      else if upper then c.outs[i] else None)
  }

  ghost predicate MuxPlacedAt(c: Cell, cells: seq<Cell>, h: nat, base: nat, i: nat) {
    MuxReady(c, DpPlan(c, base), i) && CellIs(cells, DpMux(c, h, i), MuxCell(c, DpPlan(c, base), i))
  }

  /** How many cells there are once `w` outputs are done. */
  function CellsWith(c: Cell, h: nat, w: nat): nat {
    h + 1 + Gates(c) + One(w > 0) + One(w > D(c)) + 2 * w
  }

  /** All a stage needs to know of the memory. */
  predicate OutShape(c: Cell) {
    && c.kind.DpMemory? && |c.outs| >= 1 && AllConnected(c.outs)
    && (D(c) == |c.outs| || 2 * D(c) == |c.outs|)
  }

  /** The first `w` outputs are done; `up` and `low` are the two banks but for their outputs. */
  ghost predicate Progress(c: Cell, up: Cell, low: Cell, base: nat, orig: seq<Cell>, cells: seq<Cell>, n: nat, w: nat) {
    var h := |orig|;
    && n < h && |cells| == CellsWith(c, h, w) && OtherCells(orig, cells, n)
    && cells[n] == up.(outs := OutSlots(c, base, true, w))
    && cells[h] == low.(outs := OutSlots(c, base, false, w))
    && (forall tag :: TagPlaced(c, w, tag) ==> GateAt(c, cells, h, base, tag))
    && (forall i :: 0 <= i < w ==> MuxPlacedAt(c, cells, h, base, i))
  }

  lemma {:induction false} StageNumbers(c: Cell, h: nat, base: nat, k: nat, lo: nat, i: nat)
    requires OutShape(c) && StageStart(c, k, lo) && i < D(c)
    ensures var s, e := CellsWith(c, h, lo) + 1, DpNet(c, base, Reg(k)) + 1;
      && DpCell(c, h, Reg(k)) == s - 1 && DpHas(c, Reg(k))
      && DpMux(c, h, lo + i) == s + 2 * i && DpCell(c, h, Nots(lo + i)) == s + 2 * i + 1
      && DpNet(c, base, Nots(lo + i)) == e + 3 * i
      && DpNet(c, base, OutS(lo + i)) == e + 3 * i + 1 && DpNet(c, base, OutH(lo + i)) == e + 3 * i + 2
      && OutAccess(c, lo + i) == k
      && CellsWith(c, h, lo + D(c)) == s + 2 * D(c)
  {
  }

  /** Stage 0 starts at output 0, stage 1 after the outputs of the first port. */
  predicate StageStart(c: Cell, k: nat, lo: nat) {
    k <= 1 && lo == (if k == 0 then 0 else D(c)) && lo + D(c) <= |c.outs|
  }

  /** Stage `k` adds a register and the muxes of outputs `lo` to `lo + D - 1`. */
  ghost predicate Stage(c: Cell, up: Cell, low: Cell, base: nat, orig: seq<Cell>, before: seq<Cell>, start: seq<Cell>,
                        after: seq<Cell>,
                        n: nat, k: nat, lo: nat, reg: nat, e: nat) {
    && OutShape(c) && StageStart(c, k, lo) && n < |orig| && reg == DpNet(c, base, Reg(k)) && e == reg + 1
    && Progress(c, up, low, base, orig, before, n, lo)
    && start == before + [Cell(FlipFlop, [AddrBit(c, k), ClockOf(c)], [Some(reg)], [Bit1, Bit1], [1])]
    && Muxed(start, after, n, |orig|, reg, e, lo, D(c))
  }

  lemma {:induction false} OutputAt(c: Cell, h: nat, base: nat, k: nat, lo: nat, i: nat, start: seq<Cell>,
                                    after: seq<Cell>, n: nat, reg: nat, e: nat)
    requires OutShape(c) && StageStart(c, k, lo) && i < D(c)
    requires reg == DpNet(c, base, Reg(k)) && e == reg + 1 && |start| == CellsWith(c, h, lo) + 1
    requires MuxAt(start, after, n, reg, e, lo, i) && n < |start| && lo + i < |start[n].outs|
    requires start[n].outs[lo + i] == c.outs[lo + i]
    ensures MuxPlacedAt(c, after, h, base, lo + i)
    ensures GateAt(c, after, h, base, Nots(lo + i))
  {
    StageNumbers(c, h, base, k, lo, i);
    assert c.outs[lo + i].Some?;
  }

  lemma {:induction false} StageOutput(c: Cell, up: Cell, low: Cell, base: nat, orig: seq<Cell>, before: seq<Cell>,
                                       start: seq<Cell>, after: seq<Cell>,
                                       n: nat, k: nat, lo: nat, reg: nat, e: nat, i: nat)
    requires Stage(c, up, low, base, orig, before, start, after, n, k, lo, reg, e) && i < D(c)
    ensures MuxPlacedAt(c, after, |orig|, base, lo + i)
    ensures GateAt(c, after, |orig|, base, Nots(lo + i))
  {
    assert MuxAt(start, after, n, reg, e, lo, i);
    assert start[n] == before[n];
    assert start[n].outs[lo + i] == OutSlots(c, base, true, lo)[lo + i];
    OutputAt(c, |orig|, base, k, lo, i, start, after, n, reg, e);
  }

  lemma {:induction false} StageKeeps(start: seq<Cell>, after: seq<Cell>, n: nat, h: nat, reg: nat, e: nat, lo: nat,
                                      d: nat, x: nat)
    requires Muxed(start, after, n, h, reg, e, lo, d) && x < |start| && x != n && x != h
    ensures x < |after| && after[x] == start[x]
  {
  }

  lemma {:induction false} StageGate(c: Cell, up: Cell, low: Cell, base: nat, orig: seq<Cell>, before: seq<Cell>,
                                     start: seq<Cell>, after: seq<Cell>,
                                     n: nat, k: nat, lo: nat, reg: nat, e: nat, tag: Tag)
    requires Stage(c, up, low, base, orig, before, start, after, n, k, lo, reg, e)
    requires TagPlaced(c, lo, tag) || tag == Reg(k)
    ensures GateAt(c, after, |orig|, base, tag)
  {
    var h := |orig|;
    var x := DpCell(c, h, tag);
    StageNumbers(c, h, base, k, lo, 0);
    if TagPlaced(c, lo, tag) {
      assert GateAt(c, before, h, base, tag);
    } else {
      assert x == |before|;
    }
    StageKeeps(start, after, n, h, reg, e, lo, D(c), x);
  }

  lemma {:induction false} StageMux(c: Cell, up: Cell, low: Cell, base: nat, orig: seq<Cell>, before: seq<Cell>,
                                    start: seq<Cell>, after: seq<Cell>,
                                    n: nat, k: nat, lo: nat, reg: nat, e: nat, i: nat)
    requires Stage(c, up, low, base, orig, before, start, after, n, k, lo, reg, e) && i < lo
    ensures MuxPlacedAt(c, after, |orig|, base, i)
  {
    assert MuxPlacedAt(c, before, |orig|, base, i);
    StageKeeps(start, after, n, |orig|, reg, e, lo, D(c), DpMux(c, |orig|, i));
  }

  lemma {:induction false} MovedIs(c: Cell, base: nat, upper: bool, k: nat, lo: nat, e: nat)
    requires OutShape(c) && StageStart(c, k, lo) && e == DpNet(c, base, Reg(k)) + 1
    ensures MovedOuts(OutSlots(c, base, upper, lo), lo, D(c), if upper then e + 1 else e + 2)
      == OutSlots(c, base, upper, lo + D(c))
  {
    var l, r := MovedOuts(OutSlots(c, base, upper, lo), lo, D(c), if upper then e + 1 else e + 2),
      OutSlots(c, base, upper, lo + D(c));
    forall i {:trigger l[i]} | 0 <= i < |c.outs|
      ensures l[i] == r[i]
    {
      if lo <= i < lo + D(c) { StageNumbers(c, 0, base, k, lo, i - lo); }
    }
  }

  lemma {:induction false} StageOuts(c: Cell, up: Cell, low: Cell, base: nat, orig: seq<Cell>, before: seq<Cell>,
                                     start: seq<Cell>, after: seq<Cell>,
                                     n: nat, k: nat, lo: nat, reg: nat, e: nat)
    requires Stage(c, up, low, base, orig, before, start, after, n, k, lo, reg, e)
    ensures after[n] == up.(outs := OutSlots(c, base, true, lo + D(c)))
    ensures after[|orig|] == low.(outs := OutSlots(c, base, false, lo + D(c)))
  {
    assert start[n] == before[n] && start[|orig|] == before[|orig|];
    MovedIs(c, base, true, k, lo, e);
    MovedIs(c, base, false, k, lo, e);
  }

  lemma {:induction false} StageGates(c: Cell, up: Cell, low: Cell, base: nat, orig: seq<Cell>, before: seq<Cell>,
                                      start: seq<Cell>, after: seq<Cell>,
                                      n: nat, k: nat, lo: nat, reg: nat, e: nat)
    requires Stage(c, up, low, base, orig, before, start, after, n, k, lo, reg, e)
    ensures forall tag :: TagPlaced(c, lo + D(c), tag) ==> GateAt(c, after, |orig|, base, tag)
  {
    hide Muxed, DpPlan, OutSlots;
    forall tag | TagPlaced(c, lo + D(c), tag) ensures GateAt(c, after, |orig|, base, tag) {
      if tag.Nots? && tag.i >= lo { StageOutput(c, up, low, base, orig, before, start, after, n, k, lo, reg, e,
        tag.i - lo); }
      else { StageGate(c, up, low, base, orig, before, start, after, n, k, lo, reg, e, tag); }
    }
  }

  lemma {:induction false} StageMuxes(c: Cell, up: Cell, low: Cell, base: nat, orig: seq<Cell>, before: seq<Cell>,
                                      start: seq<Cell>, after: seq<Cell>,
                                      n: nat, k: nat, lo: nat, reg: nat, e: nat)
    requires Stage(c, up, low, base, orig, before, start, after, n, k, lo, reg, e)
    ensures forall i :: 0 <= i < lo + D(c) ==> MuxPlacedAt(c, after, |orig|, base, i)
  {
    forall i | 0 <= i < lo + D(c) ensures MuxPlacedAt(c, after, |orig|, base, i) {
      if i >= lo { StageOutput(c, up, low, base, orig, before, start, after, n, k, lo, reg, e, i - lo); }
      else { StageMux(c, up, low, base, orig, before, start, after, n, k, lo, reg, e, i); }
    }
  }

  lemma {:induction false} StageFrame(c: Cell, up: Cell, low: Cell, base: nat, orig: seq<Cell>, before: seq<Cell>,
                                      start: seq<Cell>, after: seq<Cell>,
                                      n: nat, k: nat, lo: nat, reg: nat, e: nat)
    requires Stage(c, up, low, base, orig, before, start, after, n, k, lo, reg, e)
    ensures |after| == CellsWith(c, |orig|, lo + D(c)) && OtherCells(orig, after, n)
  {
    StageNumbers(c, |orig|, base, k, lo, 0);
    forall x {:trigger orig[x]} | 0 <= x < |orig| && x != n ensures after[x] == orig[x] {
      assert before[x] == orig[x];
      StageKeeps(start, after, n, |orig|, reg, e, lo, D(c), x);
    }
  }

  lemma {:induction false} StageDone(c: Cell, up: Cell, low: Cell, base: nat, orig: seq<Cell>, before: seq<Cell>,
                                     start: seq<Cell>, after: seq<Cell>,
                                     n: nat, k: nat, lo: nat, reg: nat, e: nat)
    requires Stage(c, up, low, base, orig, before, start, after, n, k, lo, reg, e)
    ensures Progress(c, up, low, base, orig, after, n, lo + D(c))
  {
    StageOuts(c, up, low, base, orig, before, start, after, n, k, lo, reg, e);
    StageFrame(c, up, low, base, orig, before, start, after, n, k, lo, reg, e);
    StageGates(c, up, low, base, orig, before, start, after, n, k, lo, reg, e);
    StageMuxes(c, up, low, base, orig, before, start, after, n, k, lo, reg, e);
  }

  // ----- from the gated banks to the finished split -----

  lemma {:induction false} Enabled2Outs(c: Cell, d: Cell, base: nat, upper: bool)
    requires PortShape(d)
    ensures Enabled2(c, d, base, upper).outs == d.outs
  {
  }

  lemma {:induction false} NoOutputsYet(a: NL, cells: seq<Cell>, n: nat, up: Cell, low: Cell)
    requires n < |a.cells| && DpSplittable(a.cells[n]) && EnablesBuilt(a, cells, n)
    requires up == Enabled2(a.cells[n], Cut(a.cells[n]), a.nets, true)
    requires low == Enabled2(a.cells[n], Cut(a.cells[n]), a.nets, false)
    ensures OutShape(a.cells[n]) && Progress(a.cells[n], up, low, a.nets, a.cells, cells, n, 0)
  {
    hide HasRole;
    var c := a.cells[n];
    Enabled2Outs(c, Cut(c), a.nets, true);
    assert OutSlots(c, a.nets, true, 0) == c.outs;
    assert OutSlots(c, a.nets, false, 0) == Nones(|c.outs|);
    assert forall tag :: TagPlaced(c, 0, tag) ==> EnableTag(tag) && DpHas(c, tag);
  }

  lemma {:induction false} AllOutputsBuilt(a: NL, b: NL, n: nat, up: Cell, low: Cell)
    requires n < |a.cells| && DpSplittable(a.cells[n])
    requires up == Enabled2(a.cells[n], Cut(a.cells[n]), a.nets, true)
    requires low == Enabled2(a.cells[n], Cut(a.cells[n]), a.nets, false)
    requires Progress(a.cells[n], up, low, a.nets, a.cells, b.cells, n, |a.cells[n].outs|)
    requires b.nets == a.nets + Gates(a.cells[n]) + 1 + 3 * |a.cells[n].outs| + One(|a.cells[n].outs| > D(a.cells[n]))
    requires b.zero == a.zero && b.one == a.one && b.pad == a.pad
    ensures DpBuilt(a, b, n)
  {
    var c, h, w := a.cells[n], |a.cells|, |a.cells[n].outs|;
    assert OutSlots(c, a.nets, true, w) == DpBank(c, a.nets, true).outs;
    assert OutSlots(c, a.nets, false, w) == DpBank(c, a.nets, false).outs;
    forall tag | DpHas(c, tag) && !IsOutTag(tag) ensures DpGateBuilt(a, b, n, tag) {
      assert TagPlaced(c, w, tag);
      assert GateAt(c, b.cells, h, a.nets, tag);
    }
    forall i | 0 <= i < w ensures DpMuxBuilt(a, b, n, i) {
      assert MuxPlacedAt(c, b.cells, h, a.nets, i);
    }
  }
}
