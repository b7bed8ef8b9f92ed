/** The slices a RAM is cut into side by side cover its word, each no wider than the hard block. */
module WidthArch {
  import opened Wrappers
  import opened Bits
  import opened Semantics
  import opened Runs
  import opened Netlists
  import opened MemoryPorts
  import opened BankSplit
  import opened WidthSlices
  import opened WidthParts
  import opened WidthSplit

  /** How many blocks of width `t` it takes. */
  function Ceil(d: nat, t: nat): (k: nat)
    requires t >= 1
  {
    if d == 0 then 0 else if d <= t then 1 else Ceil(d - t, t) + 1
  }

  /** It is the least number whose blocks suffice. */
  lemma {:induction false} CeilIsLeast(d: nat, t: nat)
    requires t >= 1
    ensures d <= Ceil(d, t) * t < d + t
  {
    if d > t { CeilIsLeast(d - t, t); }
  }

  /** One block less when up to `t` of them are taken away. */
  lemma {:induction false} CeilStep(d: nat, t: nat)
    requires t >= 1
    ensures d == 0 <==> Ceil(d, t) == 0
    ensures d > 0 ==> Ceil(if d < t then 0 else d - t, t) == Ceil(d, t) - 1
  {
  }

  /** The cuts reach from column 0 to column `upto` without gap or overlap; all but the last are `t` wide. */
  ghost predicate Tiles(cuts: seq<Cut>, upto: nat, t: nat) {
    && Apart(cuts)
    && (forall q :: 0 <= q < |cuts| ==> cuts[q].lo + cuts[q].wid <= upto && 1 <= cuts[q].wid <= t)
    && (forall q :: 0 <= q < |cuts| - 1 ==> cuts[q].wid == t)
    && (forall col {:trigger Covered(cuts, col)} :: 0 <= col < upto ==> Covered(cuts, col))
  }

  ghost predicate Covered(cuts: seq<Cut>, col: nat) {
    exists q :: 0 <= q < |cuts| && Covers(cuts[q], col)
  }

  lemma {:induction false} OneMore(cuts: seq<Cut>, upto: nat, t: nat, at: nat, take: nat)
    requires Tiles(cuts, upto, t) && 1 <= take <= t
    requires cuts != [] ==> cuts[|cuts| - 1].wid == t
    requires forall q :: 0 <= q < |cuts| ==> cuts[q].at < at
    ensures Tiles(cuts + [Cut(at, upto, take)], upto + take, t)
  {
    var cuts' := cuts + [Cut(at, upto, take)];
    forall col {:trigger Covered(cuts', col)} | 0 <= col < upto + take ensures Covered(cuts', col) {
      if col < upto {
        assert Covered(cuts, col);
        var q :| 0 <= q < |cuts| && Covers(cuts[q], col);
        assert Covers(cuts'[q], col);
      } else {
        assert Covers(cuts'[|cuts|], col);
      }
    }
  }

  /** Slice `q` is node `h + q`. */
  ghost predicate SlicesAt(c: Cell, cells: seq<Cell>, h: nat, cuts: seq<Cut>) {
    && |cells| == h + |cuts|
    && forall q :: 0 <= q < |cuts| ==> cuts[q].at == h + q && cells[h + q] == SliceCell(c, cuts[q].lo, cuts[q].wid)
  }

  /** Output `i` of the memory went to the slice that holds its column. */
  lemma {:induction false} OutWent(c: Cell, d: nat, b: NL, h: nat, cuts: seq<Cut>, t: nat, i: nat)
    requires Ram(c, d) && SlicesAt(c, b.cells, h, cuts) && Tiles(cuts, d, t) && i < |c.outs|
    ensures OutPlaced(c, b, cuts, i)
  {
    hide SameOut, SliceCell, PortShape, Apart;
    assert OutBit(c, i) < d;
    assert Covered(cuts, OutBit(c, i));
    var q: nat :| 0 <= q < |cuts| && Covers(cuts[q], OutBit(c, i));
    SliceOuts(c, d, cuts[q].lo, cuts[q].wid);
    OutputSlice(c, b.cells[cuts[q].at], d, cuts[q].lo, cuts[q].wid, i);
  }

  lemma {:induction false} RamIsMemory(c: Cell, d: nat)
    requires Ram(c, d)
    ensures IsMemory(c)
  {
  }

  lemma {:induction false} SplitSlices(a: NL, b: NL, n: nat, d: nat, cuts: seq<Cut>, t: nat)
    requires n < |a.cells| && Ram(a.cells[n], d) && Tiles(cuts, d, t)
    requires b == NL(b.cells, a.nets, a.zero, a.one, a.pad) && SlicesAt(a.cells[n], b.cells, |a.cells|, cuts)
    requires b.cells[n] == Freed
    requires forall k {:trigger a.cells[k]} :: 0 <= k < |a.cells| && k != n ==> b.cells[k] == a.cells[k]
    ensures SlicesOf(a, b, n, cuts)
  {
    hide SliceOf, SliceCell, Ram, OutPlaced, Apart;
    var c := a.cells[n];
    RamIsMemory(c, d);
    forall q | 0 <= q < |cuts| ensures CutPlaced(a, b, n, cuts[q]) {
      SliceIsSlice(c, d, cuts[q].lo, cuts[q].wid, cuts[q].at);
    }
    forall k {:trigger b.cells[k]} | k == n || |a.cells| <= k < |b.cells|
      ensures IsSliceNode(cuts, k) || Undriving(b.cells[k]) {
      if k != n { assert cuts[k - |a.cells|].at == k; }
    }
    forall i | 0 <= i < |c.outs| ensures OutPlaced(c, b, cuts, i) {
      OutWent(c, d, b, |a.cells|, cuts, t, i);
    }
  }

  /** All slices cut: no pin is left on the memory. */
  lemma {:induction false} NothingLeft(c: Cell, d: nat, x: Cell)
    requires Ram(c, d) && Left(c, x, d, true)
    ensures (forall i :: 0 <= i < |x.ins| ==> x.ins[i] == None) && (forall i :: 0 <= i < |x.outs| ==> x.outs[i] == None)
  {
    RamReach(c, d, d);
    AllGone(c.inPorts, c.ins, x.ins, Taken(c.kind, c.inPorts, d, true));
    AllGone(OutsAsPorts(c.outPorts), c.outs, x.outs, Taken(SpMemory, OutsAsPorts(c.outPorts), d, false));
    hide Gone, Offset;
  }

  lemma {:induction false} AllLeft(c: Cell)
    ensures Left(c, c, 0, false)
  {
  }

  /** What is true between two slices. */
  ghost predicate Slicing(before: seq<Cell>, n: nat, c: Cell, cells: seq<Cell>, cuts: seq<Cut>, moved: nat, t: nat,
                          done: bool) {
    && n < |before| <= |cells| && before[n] == c
    && SlicesAt(c, cells, |before|, cuts) && Tiles(cuts, moved, t) && Left(c, cells[n], moved, done)
    && forall k {:trigger before[k]} :: 0 <= k < |before| && k != n ==> cells[k] == before[k]
  }

  lemma {:induction false} FirstSlicing(before: seq<Cell>, n: nat, c: Cell, t: nat)
    requires n < |before| && before[n] == c
    ensures Slicing(before, n, c, before, [], 0, t, false)
  {
    AllLeft(c);
  }

  lemma {:induction false} SlicingLeft(before: seq<Cell>, n: nat, c: Cell, cells: seq<Cell>, cuts: seq<Cut>,
                                       moved: nat, t: nat)
    requires Slicing(before, n, c, cells, cuts, moved, t, false)
    ensures n < |cells| == |before| + |cuts| && Left(c, cells[n], moved, false)
  {
  }

  lemma {:induction false} SlicingStep(before: seq<Cell>, n: nat, c: Cell, cells: seq<Cell>, cells': seq<Cell>,
                                       cuts: seq<Cut>, moved: nat, t: nat,
                                       take: nat, done: bool)
    requires Slicing(before, n, c, cells, cuts, moved, t, false) && 1 <= take <= t
    requires cuts != [] ==> cuts[|cuts| - 1].wid == t
    requires |cells'| == |cells| + 1 && cells' == cells[n := cells'[n]] + [SliceCell(c, moved, take)]
    requires Left(c, cells'[n], moved + take, done)
    ensures Slicing(before, n, c, cells', cuts + [Cut(|cells|, moved, take)], moved + take, t, done)
  {
    OneMore(cuts, moved, t, |cells|, take);
    hide Tiles, Left, SliceCell;
  }

  /** The list after `k` new nodes, the first of them `h`, were put in front one by one. */
  function Pushed(list: seq<nat>, h: nat, k: nat): seq<nat> {
    seq(k, (q: nat) requires q < k => h + (k - 1 - q)) + list
  }

  lemma {:induction false} PushedStep(list: seq<nat>, h: nat, k: nat)
    ensures Pushed(list, h, 0) == list
    ensures Pushed(list, h, k + 1) == [h + k] + Pushed(list, h, k)
  {
  }

  /** The next slice: as wide as the hard block, or what is left. The new node goes to the front of the list. */
  method NextSlice(g: Netlist, n: nat, ghost c: Cell, d: nat, target: nat, moved: nat, last: bool,
                   ghost before: seq<Cell>, ghost cuts: seq<Cut>,
                   list: seq<nat>, ghost list0: seq<nat>, ghost open: set<nat>)
    returns (take: nat, list': seq<nat>, ghost cuts': seq<Cut>)
    requires g.Valid() && g.BoundBut(open) && n !in open && n < |g.cells| && Ram(c, d) && 1 <= target && moved < d
    requires Slicing(before, n, c, g.cells, cuts, moved, target, false)
    requires (cuts != [] ==> cuts[|cuts| - 1].wid == target)
    requires list == Pushed(list0, |before|, |cuts|)
    modifies g
    ensures g.Valid() && g.BoundBut(open) && |g.nets| == |old(g.nets)| && (old(g.tidy) ==> g.tidy)
    ensures take == (if d - moved < target then d - moved else target) && n < |g.cells|
    ensures |cuts'| == |cuts| + 1 && cuts'[|cuts|].wid == take
    ensures Slicing(before, n, c, g.cells, cuts', moved + take, target, last)
    ensures list' == Pushed(list0, |before|, |cuts'|)
  {
    hide Slicing, Ram, Pushed, Left, SliceCell;
    take := if d - moved < target then d - moved else target;
    SlicingLeft(before, n, c, g.cells, cuts, moved, target);
    ghost var cells := g.cells;
    var m := CutSlice(g, n, c, d, moved, take, last, open);
    SlicingStep(before, n, c, cells, g.cells, cuts, moved, target, take, last);
    PushedStep(list0, |before|, |cuts|);
    cuts' := cuts + [Cut(m, moved, take)];
    list' := [m] + list;
  }

  /** All slices. */
  method CutAll(g: Netlist, n: nat, ghost c: Cell, d: nat, target: nat, list: seq<nat>, ghost open: set<nat>)
    returns (list': seq<nat>, ghost cuts: seq<Cut>)
    requires g.Valid() && g.BoundBut(open) && n !in open && n < |g.cells| && c == g.cells[n] && Ram(c, d)
    requires 1 <= target < d
    modifies g
    ensures g.Valid() && g.BoundBut(open) && |g.nets| == |old(g.nets)| && (old(g.tidy) ==> g.tidy) && n < |g.cells|
    ensures |cuts| == Ceil(d, target) && list' == Pushed(list, |old(g.cells)|, |cuts|)
    ensures Slicing(old(g.cells), n, c, g.cells, cuts, d, target, true)
  {
    hide Slicing, Ram, Pushed, Ceil;
    var moved: nat, count, last := 0, Ceil(d, target), false;
    list', cuts := list, [];
    ghost var before := g.cells;
    FirstSlicing(before, n, c, target);
    CeilStep(d, target);
    PushedStep(list, |before|, 0);
    for i := 0 to count
      invariant g.Valid() && g.BoundBut(open) && |g.nets| == |old(g.nets)| && (old(g.tidy) ==> g.tidy) && n < |g.cells|
      invariant moved <= d && Ceil(d - moved, target) == count - i && |cuts| == i && last == (i == count)
      invariant Slicing(before, n, c, g.cells, cuts, moved, target, last)
      invariant !last && cuts != [] ==> cuts[|cuts| - 1].wid == target
      invariant list' == Pushed(list, |before|, |cuts|)
    {
      CeilStep(d - moved, target);
      last := i == count - 1;
      ghost var was := cuts;
      var take: nat;
      take, list', cuts := NextSlice(g, n, c, d, target, moved, last, before, was, list', list, open);
      moved := moved + take;
      CeilStep(d - moved, target);
    }
    CeilStep(d - moved, target);
  }

  /** The wide case: slices of the hard block's width, the memory itself is freed. */
  method CutToWidth(g: Netlist, n: nat, ghost c: Cell, d: nat, target: nat, list: seq<nat>, ghost open: set<nat>)
    returns (list': seq<nat>, ghost cuts: seq<Cut>)
    requires g.Valid() && g.BoundBut(open) && n !in open && n < |g.cells| && c == g.cells[n] && Ram(c, d)
    requires 1 <= target < d
    modifies g
    ensures g.Valid() && g.BoundBut(open) && |g.nets| == |old(g.nets)| && (old(g.tidy) ==> g.tidy)
    ensures n < |g.cells| && g.cells[n] == Freed && |cuts| == Ceil(d, target)
    ensures Tiles(cuts, d, target) && SlicesAt(c, g.cells, |old(g.cells)|, cuts)
    ensures forall k {:trigger old(g.cells)[k]} :: 0 <= k < |old(g.cells)| && k != n ==> g.cells[k] == old(g.cells)[k]
    ensures list' == Pushed(list, |old(g.cells)|, |cuts|)
  {
    list', cuts := CutAll(g, n, c, d, target, list, open);
    FinishSlices(g, n, c, d, target, old(g.cells), cuts, open);
  }

  /** The memory has no pin left and is freed. */
  method FinishSlices(g: Netlist, n: nat, ghost c: Cell, ghost d: nat, ghost target: nat, ghost before: seq<Cell>,
                      ghost cuts: seq<Cut>, ghost open: set<nat>)
    requires g.Valid() && g.BoundBut(open) && n !in open && n < |g.cells| && Ram(c, d)
    requires Slicing(before, n, c, g.cells, cuts, d, target, true)
    modifies g
    ensures g.Valid() && g.BoundBut(open) && |g.nets| == |old(g.nets)| && (old(g.tidy) ==> g.tidy)
    ensures n < |g.cells| && g.cells[n] == Freed
    ensures Tiles(cuts, d, target) && SlicesAt(c, g.cells, |before|, cuts)
    ensures forall k {:trigger before[k]} :: 0 <= k < |before| && k != n ==>
      |before| <= |g.cells| && g.cells[k] == before[k]
  {
    NothingLeft(c, d, g.cells[n]);
    ghost var nodes1, cells1 := g.nodes, g.cells;
    g.FreeNode(n);
    StillBound(nodes1, cells1, g.nodes, g.cells, open, n, n);
  }

  /** Memory `n`, wider than `target`, was cut up: ceil(d / target) slices follow the old nodes, they tile its word
      in order, each has its share of every data and output port and all of the other ports, no pin stayed behind,
      and every run goes on as before. */
  ghost predicate CutUp(a: NL, b: NL, n: nat, d: nat, target: nat, cuts: seq<Cut>)
    requires target >= 1
  {
    && n < |a.cells| < |b.cells| && Ram(a.cells[n], d) && target < d
    && b.cells[n] == Freed && |cuts| == Ceil(d, target) && Tiles(cuts, d, target)
    && SlicesAt(a.cells[n], b.cells, |a.cells|, cuts)
    && (forall k {:trigger a.cells[k]} :: 0 <= k < |a.cells| && k != n ==> b.cells[k] == a.cells[k])
    && RunEquivalent(a, b)
  }

  /** Every slice is a RAM that fits the hard block; only the last one can be narrower than it. */
  lemma {:induction false} SlicesFit(a: NL, b: NL, n: nat, d: nat, target: nat, cuts: seq<Cut>, q: nat)
    requires target >= 1 && CutUp(a, b, n, d, target, cuts) && q < |cuts|
    ensures |a.cells| + q < |b.cells| && Ram(b.cells[|a.cells| + q], cuts[q].wid)
    ensures 1 <= cuts[q].wid <= target && (q < |cuts| - 1 ==> cuts[q].wid == target)
  {
    hide Ram, SliceCell, RunEquivalent, Apart;
    SliceIsRam(a.cells[n], d, cuts[q].lo, cuts[q].wid);
  }

  lemma {:induction false} CutIsEquivalent(a: NL, b: NL, n: nat, d: nat, target: nat, cuts: seq<Cut>)
    requires n < |a.cells| && Ram(a.cells[n], d) && 1 <= target < d
    requires b == NL(b.cells, a.nets, a.zero, a.one, a.pad) && |cuts| == Ceil(d, target)
    requires SlicesAt(a.cells[n], b.cells, |a.cells|, cuts) && Tiles(cuts, d, target)
    requires b.cells[n] == Freed
    requires forall k {:trigger a.cells[k]} :: 0 <= k < |a.cells| && k != n ==> b.cells[k] == a.cells[k]
    ensures CutUp(a, b, n, d, target, cuts)
  {
    hide Ram, SliceCell, Apart, SlicesOf;
    CeilIsLeast(d, target);
    SplitSlices(a, b, n, d, cuts, target);
    SlicesEquivalent(a, b, n, cuts);
  }

  /** split_sp_memory_to_arch_width: `target` is the width of the data port of the hard block. */
  method SplitSpMemoryToArchWidth(g: Netlist, n: nat, target: nat, ghost d: nat, list: seq<nat>, ghost open: set<nat>)
    returns (list': seq<nat>, ghost cuts: seq<Cut>)
    requires g.Valid() && g.BoundBut(open) && n !in open && n < |g.cells| && g.cells[n].kind.SpMemory?
    requires Ram(g.cells[n], d) && target >= 1
    modifies g
    ensures g.Valid() && g.BoundBut(open) && (old(g.tidy) ==> g.tidy)
    ensures d <= target ==> g.Meaning() == old(g.Meaning()) && list' == [n] + list
    ensures d > target ==>
      CutUp(old(g.Meaning()), g.Meaning(), n, d, target, cuts) && list' == Pushed(list, |old(g.cells)|, |cuts|)
  {
    assert NodeOk(g.nodes[n], g.pins, n, g.cells[n]);
    var port, at := LookUpPort(g.nodes[n].inPorts, Data);
    var size := g.nodes[n].inPorts[port].width;
    list', cuts := SplitBySize(g, n, size, target, list, open);
  }

  /** split_dp_memory_to_arch_width */
  method SplitDpMemoryToArchWidth(g: Netlist, n: nat, target: nat, ghost d: nat, list: seq<nat>, ghost open: set<nat>)
    returns (list': seq<nat>, ghost cuts: seq<Cut>)
    requires g.Valid() && g.BoundBut(open) && n !in open && n < |g.cells| && g.cells[n].kind.DpMemory?
    requires Ram(g.cells[n], d) && target >= 1
    modifies g
    ensures g.Valid() && g.BoundBut(open) && (old(g.tidy) ==> g.tidy)
    ensures d <= target ==> g.Meaning() == old(g.Meaning()) && list' == [n] + list
    ensures d > target ==>
      CutUp(old(g.Meaning()), g.Meaning(), n, d, target, cuts) && list' == Pushed(list, |old(g.cells)|, |cuts|)
  {
    assert NodeOk(g.nodes[n], g.pins, n, g.cells[n]);
    var port, at := LookUpPort(g.nodes[n].inPorts, Data1);
    var size := g.nodes[n].inPorts[port].width;
    list', cuts := SplitBySize(g, n, size, target, list, open);
  }

  /** What both do once the width is known. */
  method SplitBySize(g: Netlist, n: nat, d: nat, target: nat, list: seq<nat>, ghost open: set<nat>)
    returns (list': seq<nat>, ghost cuts: seq<Cut>)
    requires g.Valid() && g.BoundBut(open) && n !in open && n < |g.cells| && Ram(g.cells[n], d) && target >= 1
    modifies g
    ensures g.Valid() && g.BoundBut(open) && (old(g.tidy) ==> g.tidy)
    ensures d <= target ==> g.Meaning() == old(g.Meaning()) && list' == [n] + list
    ensures d > target ==>
      CutUp(old(g.Meaning()), g.Meaning(), n, d, target, cuts) && list' == Pushed(list, |old(g.cells)|, |cuts|)
  {
    hide Ram, CutUp, Tiles, SlicesAt, Ceil, Pushed;
    if d > target {
      list', cuts := CutToWidth(g, n, g.cells[n], d, target, list, open);
      CutIsEquivalent(old(g.Meaning()), g.Meaning(), n, d, target, cuts);
    } else {
      list', cuts := [n] + list, [];
    }
  }
}
