/** The width half of iterate_memories: every RAM of a list is cut to the width of the hard block, and then filled
    up to it. The list of single-port RAMs and the list of dual-port RAMs go through the same two loops. */
module WidthPass {
  import opened Wrappers
  import opened Bits
  import opened Semantics
  import opened Runs
  import opened Netlists
  import opened MemoryPorts
  import opened BankSplit
  import opened MemoryTree
  import opened WidthSlices
  import opened WidthParts
  import opened WidthArch
  import opened WidthPadded
  import opened WidthFill

  function Width(c: Cell): nat {
    if c.outPorts == [] then 0 else c.outPorts[0]
  }

  /** What the RAMs of one list have in common: their kind, and how many live address bits they may have. No bound
      is written as 0. */
  datatype Rams = Rams(kind: Kind, depth: nat, pad: nat)

  predicate Shallow(c: Cell, depth: nat, pad: nat) {
    IsMemory(c) && (depth == 0 || LiveBits(c, pad) <= depth)
  }

  lemma {:induction false} StillShallow(c: Cell, s: Cell, depth: nat, pad: nat)
    requires SameDepth(c, s) && Shallow(c, depth, pad)
    ensures Shallow(s, depth, pad)
  {
  }

  ghost predicate RamNode(cells: seq<Cell>, rams: Rams, x: nat) {
    && x < |cells| && cells[x].kind == rams.kind && Ram(cells[x], Width(cells[x]))
    && Shallow(cells[x], rams.depth, rams.pad)
  }

  ghost predicate Narrow(cells: seq<Cell>, rams: Rams, target: nat, x: nat) {
    RamNode(cells, rams, x) && Width(cells[x]) <= target
  }

  /** No node stands twice on the list, and every one is such a RAM. */
  ghost predicate RamList(cells: seq<Cell>, rams: Rams, list: seq<nat>) {
    Runs.Distinct(list) && forall i {:trigger list[i]} :: 0 <= i < |list| ==> RamNode(cells, rams, list[i])
  }

  /** The RAMs cut so far are narrow, and none of them is still to be cut. */
  ghost predicate Cutting(cells: seq<Cell>, rams: Rams, target: nat, list: seq<nat>, i: nat, done: seq<nat>) {
    && i <= |list| && RamList(cells, rams, list[i..]) && Runs.Distinct(done)
    && (forall j {:trigger done[j]} :: 0 <= j < |done| ==>
      Narrow(cells, rams, target, done[j]) && done[j] !in list[i..])
  }

  /** Every RAM taken from the list, and every node made since, is on the other list or was freed; nothing else is on
      that list, and no other node has changed. */
  ghost predicate Kept(before: seq<Cell>, cells: seq<Cell>, taken: seq<nat>, done: seq<nat>) {
    && |before| <= |cells|
    && (forall x {:trigger cells[x]} :: 0 <= x < |cells| && (x in taken || |before| <= x) ==>
      x in done || cells[x] == Freed)
    && (forall x {:trigger x in done} :: x in done ==> x in taken || |before| <= x)
    && (forall x {:trigger before[x]} :: 0 <= x < |before| && x !in taken ==> cells[x] == before[x])
  }

  lemma {:induction false} KeptOne(before: seq<Cell>, cells: seq<Cell>, taken: seq<nat>, done: seq<nat>, n: nat)
    requires Kept(before, cells, taken, done)
    ensures Kept(before, cells, taken + [n], [n] + done)
  {
  }

  lemma {:induction false} KeptCut(before: seq<Cell>, a: NL, b: NL, taken: seq<nat>, done: seq<nat>, n: nat, d: nat,
                                   target: nat, cuts: seq<Cut>)
    requires target >= 1 && CutUp(a, b, n, d, target, cuts) && Kept(before, a.cells, taken, done)
    ensures Kept(before, b.cells, taken + [n], Pushed(done, |a.cells|, |cuts|))
  {
    hide Ram, RunEquivalent, Tiles, Pushed, SliceCell;
    var done' := Pushed(done, |a.cells|, |cuts|);
    PushedSize(done, |a.cells|, |cuts|);
    forall x {:trigger b.cells[x]} | 0 <= x < |b.cells| && (x in taken + [n] || |before| <= x)
      ensures x in done' || b.cells[x] == Freed {
      if x >= |a.cells| {
        PushedNodes(done, |a.cells|, |cuts|, |cuts| - 1 - (x - |a.cells|));
      } else if x != n {
        assert b.cells[x] == a.cells[x];
        if x in done {
          var j :| 0 <= j < |done| && done[j] == x;
          PushedNodes(done, |a.cells|, |cuts|, |cuts| + j);
        }
      }
    }
    forall x {:trigger x in done'} | x in done' ensures x in taken + [n] || |before| <= x {
      var j :| 0 <= j < |done'| && done'[j] == x;
      PushedNodes(done, |a.cells|, |cuts|, j);
      if j >= |cuts| { assert done[j - |cuts|] in done; }
    }
    forall x {:trigger before[x]} | 0 <= x < |before| && x !in taken + [n] ensures b.cells[x] == before[x] {
      assert a.cells[x] == before[x] && b.cells[x] == a.cells[x];
    }
  }

  lemma {:induction false} PushedSize(list: seq<nat>, h: nat, k: nat)
    ensures |Pushed(list, h, k)| == |list| + k
  {
  }

  lemma {:induction false} RamWidth(c: Cell, d: nat)
    requires Ram(c, d)
    ensures Width(c) == d
  {
  }

  /** A RAM that is narrow enough moves to the other list. */
  lemma {:induction false} KeptNext(cells: seq<Cell>, rams: Rams, target: nat, list: seq<nat>, i: nat, done: seq<nat>)
    requires i < |list| && Cutting(cells, rams, target, list, i, done) && Width(cells[list[i]]) <= target
    ensures Cutting(cells, rams, target, list, i + 1, [list[i]] + done)
  {
    hide Ram, Width;
    var rest := list[i..];
    assert rest[0] == list[i] && rest[1..] == list[i + 1..];
    forall j {:trigger list[i + 1..][j]} | 0 <= j < |list| - i - 1 ensures list[i + 1..][j] == rest[j + 1] {
    }
    assert RamNode(cells, rams, rest[0]);
  }

  /** The nodes of the old list, and the new ones. */
  lemma {:induction false} PushedNodes(list: seq<nat>, h: nat, k: nat, j: nat)
    requires j < |Pushed(list, h, k)|
    ensures j < k ==> h <= Pushed(list, h, k)[j] == h + (k - 1 - j) < h + k
    ensures j >= k ==> j - k < |list| && Pushed(list, h, k)[j] == list[j - k]
  {
  }

  /** Any cell in place before stays a RAM if it was one. */
  lemma {:induction false} StillRam(a: NL, b: NL, n: nat, d: nat, target: nat, cuts: seq<Cut>, rams: Rams, x: nat)
    requires target >= 1 && CutUp(a, b, n, d, target, cuts) && x != n && RamNode(a.cells, rams, x)
    ensures RamNode(b.cells, rams, x) && b.cells[x] == a.cells[x] && x < |a.cells|
  {
    hide Ram, Width;
  }

  lemma {:induction false} SliceIsShallow(c: Cell, d: nat, lo: nat, take: nat, rams: Rams)
    requires Ram(c, d) && lo + take <= d && Shallow(c, rams.depth, rams.pad)
    ensures Shallow(SliceCell(c, lo, take), rams.depth, rams.pad) && SliceCell(c, lo, take).kind == c.kind
  {
    hide SliceCell, Shallow;
    SliceIsSlice(c, d, lo, take, 0);
    SliceDepth(c, SliceCell(c, lo, take), Cut(0, lo, take));
    StillShallow(c, SliceCell(c, lo, take), rams.depth, rams.pad);
  }

  lemma {:induction false} SliceNarrow(a: NL, b: NL, rams: Rams, n: nat, d: nat, target: nat, cuts: seq<Cut>, x: nat)
    requires target >= 1 && CutUp(a, b, n, d, target, cuts) && |a.cells| <= x < |a.cells| + |cuts|
    requires RamNode(a.cells, rams, n)
    ensures Narrow(b.cells, rams, target, x)
  {
    hide Ram, Shallow, SliceCell;
    var q: nat := x - |a.cells|;
    SlicesFit(a, b, n, d, target, cuts, q);
    RamWidth(b.cells[x], cuts[q].wid);
    assert b.cells[|a.cells| + q] == SliceCell(a.cells[n], cuts[q].lo, cuts[q].wid);
    SliceIsShallow(a.cells[n], d, cuts[q].lo, cuts[q].wid, rams);
  }

  /** The slices of a wide RAM come to the other list. */
  lemma {:induction false} CutNext(a: NL, b: NL, rams: Rams, target: nat, list: seq<nat>, i: nat, done: seq<nat>,
                                   d: nat, cuts: seq<Cut>)
    requires i < |list| && Cutting(a.cells, rams, target, list, i, done) && target >= 1
    requires CutUp(a, b, list[i], d, target, cuts)
    ensures Cutting(b.cells, rams, target, list, i + 1, Pushed(done, |a.cells|, |cuts|))
  {
    hide Ram, Width, CutUp, Pushed;
    var n, rest, next, done' := list[i], list[i..], list[i + 1..], Pushed(done, |a.cells|, |cuts|);
    assert rest[0] == n && rest[1..] == next;
    assert RamNode(a.cells, rams, rest[0]);
    forall j {:trigger next[j]} | 0 <= j < |next| ensures RamNode(b.cells, rams, next[j]) && next[j] < |a.cells| {
      assert next[j] == rest[j + 1] && rest[0] != rest[j + 1];
      StillRam(a, b, n, d, target, cuts, rams, next[j]);
    }
    forall j {:trigger done'[j]} | 0 <= j < |done'|
      ensures Narrow(b.cells, rams, target, done'[j]) && done'[j] !in next {
      PushedNodes(done, |a.cells|, |cuts|, j);
      if j < |cuts| {
        SliceNarrow(a, b, rams, n, d, target, cuts, done'[j]);
      } else {
        assert Narrow(a.cells, rams, target, done[j - |cuts|]) && done[j - |cuts|] !in rest;
        StillRam(a, b, n, d, target, cuts, rams, done[j - |cuts|]);
      }
    }
    PushedDistinct(a.cells, rams, target, done, |cuts|);
  }

  lemma {:induction false} PushedDistinct(cells: seq<Cell>, rams: Rams, target: nat, done: seq<nat>, k: nat)
    requires Runs.Distinct(done)
    requires forall j {:trigger done[j]} :: 0 <= j < |done| ==> Narrow(cells, rams, target, done[j])
    ensures Runs.Distinct(Pushed(done, |cells|, k))
  {
    hide Ram, Width, Pushed;
    var done' := Pushed(done, |cells|, k);
    forall p, q | 0 <= p < q < |done'| ensures done'[p] != done'[q] {
      PushedNodes(done, |cells|, k, p);
      PushedNodes(done, |cells|, k, q);
      if q >= k { assert Narrow(cells, rams, target, done[q - k]); }
    }
  }

  /** One RAM of the list, single-port or dual-port. */
  method CutMemory(g: Netlist, rams: Rams, target: nat, ghost list: seq<nat>, ghost i: nat, n: nat, done: seq<nat>,
                   ghost before: seq<Cell>, ghost open: set<nat>)
    returns (done': seq<nat>)
    requires g.Valid() && g.BoundBut(open) && n !in open && target >= 1 && (rams.kind.SpMemory? || rams.kind.DpMemory?)
    requires i < |list| && list[i] == n && Cutting(g.cells, rams, target, list, i, done)
    requires Kept(before, g.cells, list[..i], done)
    modifies g
    ensures Kept(before, g.cells, list[..i + 1], done')
    ensures g.Valid() && g.BoundBut(open) && (old(g.tidy) ==> g.tidy)
    ensures Cutting(g.cells, rams, target, list, i + 1, done')
    ensures RunEquivalent(old(g.Meaning()), g.Meaning())
  {
    hide Ram, CutUp, RunEquivalent, Kept;
    assert list[i..][0] == n && list[..i + 1] == list[..i] + [n];
    assert RamNode(g.cells, rams, n);
    ghost var d, cuts := Width(g.cells[n]), [];
    if rams.kind.SpMemory? {
      done', cuts := SplitSpMemoryToArchWidth(g, n, target, d, done, open);
    } else {
      done', cuts := SplitDpMemoryToArchWidth(g, n, target, d, done, open);
    }
    if d <= target {
      KeptNext(old(g.cells), rams, target, list, i, done);
      KeptOne(before, old(g.cells), list[..i], done, n);
      RunEquivalentReflexive(old(g.Meaning()));
    } else {
      CutNext(old(g.Meaning()), g.Meaning(), rams, target, list, i, done, d, cuts);
      CutUpRuns(old(g.Meaning()), g.Meaning(), n, d, target, cuts);
      KeptCut(before, old(g.Meaning()), g.Meaning(), list[..i], done, n, d, target, cuts);
    }
  }

  lemma {:induction false} CutUpRuns(a: NL, b: NL, n: nat, d: nat, target: nat, cuts: seq<Cut>)
    requires target >= 1 && CutUp(a, b, n, d, target, cuts)
    ensures RunEquivalent(a, b) && |a.cells| <= |b.cells|
  {
  }

  /** The first loop: afterwards every RAM on the list fits the hard block. */
  method CutMemories(g: Netlist, rams: Rams, target: nat, list: seq<nat>, ghost open: set<nat>) returns (done: seq<nat>)
    requires g.Valid() && g.BoundBut(open) && (forall x {:trigger x in open} :: x in open ==> x !in list)
    requires target >= 1 && (rams.kind.SpMemory? || rams.kind.DpMemory?) && RamList(g.cells, rams, list)
    modifies g
    ensures g.Valid() && g.BoundBut(open) && (old(g.tidy) ==> g.tidy) && RunEquivalent(old(g.Meaning()), g.Meaning())
    ensures RamList(g.cells, rams, done) && Kept(old(g.cells), g.cells, list, done)
    ensures forall i {:trigger done[i]} :: 0 <= i < |done| ==> Narrow(g.cells, rams, target, done[i])
  {
    hide Ram, RunEquivalent;
    done := [];
    assert list[0..] == list;
    ghost var a := g.Meaning();
    RunEquivalentReflexive(a);
    for i := 0 to |list|
      invariant g.Valid() && g.BoundBut(open) && (old(g.tidy) ==> g.tidy) && RunEquivalent(a, g.Meaning())
      invariant Cutting(g.cells, rams, target, list, i, done)
      invariant Kept(a.cells, g.cells, list[..i], done)
    {
      ghost var b := g.Meaning();
      done := CutMemory(g, rams, target, list, i, list[i], done, a.cells, open);
      RunEquivalentTransitive(a, b, g.Meaning());
    }
    assert list[..|list|] == list;
  }

  /** A RAM of this list whose ports all have the width of the hard block. */
  ghost predicate Fitted(cells: seq<Cell>, rams: Rams, target: nat, x: nat) {
    && x < |cells| && cells[x].kind == rams.kind && Filled(cells[x], target, target)
    && Shallow(cells[x], rams.depth, rams.pad)
  }

  /** The first `i` RAMs of the list are filled up, the others are as narrow as they were. */
  ghost predicate Filling(cells: seq<Cell>, rams: Rams, target: nat, list: seq<nat>, i: nat) {
    && Runs.Distinct(list)
    && (forall j {:trigger list[j]} :: 0 <= j < i && j < |list| ==> Fitted(cells, rams, target, list[j]))
    && (forall j {:trigger list[j]} :: i <= j < |list| ==> Narrow(cells, rams, target, list[j]))
  }

  lemma {:induction false} FilledNext(cells: seq<Cell>, cells': seq<Cell>, rams: Rams, target: nat, list: seq<nat>,
                                      i: nat)
    requires i < |list| && Filling(cells, rams, target, list, i) && |cells'| == |cells| && list[i] < |cells|
    requires cells' == cells[list[i] := cells'[list[i]]] && Fitted(cells', rams, target, list[i])
    ensures Filling(cells', rams, target, list, i + 1)
  {
    hide Ram, Filled, Width;
    forall j {:trigger list[j]} | i + 1 <= j < |list| ensures Narrow(cells', rams, target, list[j]) {
      assert list[i] != list[j] && Narrow(cells, rams, target, list[j]);
    }
    forall j {:trigger list[j]} | 0 <= j < i + 1 && j < |list| ensures Fitted(cells', rams, target, list[j]) {
      if j < i { assert list[j] != list[i] && Fitted(cells, rams, target, list[j]); }
    }
  }

  /** Cells off the list are not touched. */
  ghost predicate OffList(before: seq<Cell>, after: seq<Cell>, list: seq<nat>) {
    |after| == |before| && forall x {:trigger after[x]} :: 0 <= x < |after| && x !in list ==> after[x] == before[x]
  }

  /** One RAM of the list is filled up. */
  method FillMemory(g: Netlist, rams: Rams, target: nat, ghost list: seq<nat>, ghost i: nat, n: nat, ghost a: NL,
                    ghost open: set<nat>)
    requires g.Valid() && g.BoundBut(open) && n in open && (rams.kind.SpMemory? || rams.kind.DpMemory?) && i < |list|
    requires n == list[i]
    requires Filling(g.cells, rams, target, list, i) && RunEquivalent(a, g.Meaning()) && OffList(a.cells, g.cells, list)
    modifies g
    ensures g.Valid() && g.BoundBut(open) && RunEquivalent(a, g.Meaning()) && OffList(a.cells, g.cells, list)
    ensures Filling(g.cells, rams, target, list, i + 1)
  {
    hide Ram, RunEquivalent, Filled;
    ghost var b, nodes1 := g.Meaning(), g.nodes;
    assert Narrow(g.cells, rams, target, list[i]);
    if rams.kind.SpMemory? {
      PadSpMemoryWidth(g, n, target, target, Width(g.cells[n]));
    } else {
      PadDpMemoryWidth(g, n, target, target, Width(g.cells[n]));
    }
    StillBound(nodes1, b.cells, g.nodes, g.cells, open, n, n);
    StillShallow(b.cells[n], g.cells[n], rams.depth, rams.pad);
    FilledNext(b.cells, g.cells, rams, target, list, i);
    RunEquivalentTransitive(a, b, g.Meaning());
  }

  /** `t` is `s` in the other order. */
  predicate Backwards(s: seq<nat>, t: seq<nat>) {
    |t| == |s| && forall j {:trigger s[j]} :: 0 <= j < |s| ==> t[|s| - 1 - j] == s[j]
  }

  lemma {:induction false} BackwardsNext(list: seq<nat>, i: nat, done: seq<nat>)
    requires i < |list| && Backwards(list[..i], done)
    ensures Backwards(list[..i + 1], [list[i]] + done)
  {
  }

  lemma {:induction false} BackwardsSame(s: seq<nat>, t: seq<nat>, x: nat)
    requires Backwards(s, t)
    ensures x in s <==> x in t
  {
    if x in t {
      var j :| 0 <= j < |t| && t[j] == x;
      assert s[|s| - 1 - j] == t[j];
    }
  }

  /** The second loop: the ports are filled up to the width of the hard block. */
  method FillMemories(g: Netlist, rams: Rams, target: nat, list: seq<nat>, ghost open: set<nat>)
    returns (done: seq<nat>)
    requires g.Valid() && g.BoundBut(open) && (forall j {:trigger list[j]} :: 0 <= j < |list| ==> list[j] in open)
    requires (rams.kind.SpMemory? || rams.kind.DpMemory?) && Filling(g.cells, rams, target, list, 0)
    modifies g
    ensures g.Valid() && g.BoundBut(open) && RunEquivalent(old(g.Meaning()), g.Meaning())
    ensures OffList(old(g.cells), g.cells, list)
    ensures Backwards(list, done)
    ensures forall i {:trigger list[i]} :: 0 <= i < |list| ==> Fitted(g.cells, rams, target, list[i])
  {
    hide Ram, RunEquivalent, Filled, Backwards;
    done := [];
    ghost var a := g.Meaning();
    RunEquivalentReflexive(a);
    NoneBackwards(list);
    for i := 0 to |list|
      invariant g.Valid() && g.BoundBut(open) && RunEquivalent(a, g.Meaning()) && OffList(a.cells, g.cells, list)
      invariant Filling(g.cells, rams, target, list, i) && Backwards(list[..i], done)
    {
      FillMemory(g, rams, target, list, i, list[i], a, open);
      BackwardsNext(list, i, done);
      done := [list[i]] + done;
    }
    assert list[..|list|] == list;
  }

  lemma {:induction false} NoneBackwards(list: seq<nat>)
    ensures Backwards(list[..0], [])
  {
  }

  function Members(list: seq<nat>): set<nat> {
    set x | x in list
  }

  lemma {:induction false} SameMembers(s: seq<nat>, t: seq<nat>)
    requires Backwards(s, t)
    ensures Members(s) == Members(t)
  {
    hide Backwards;
    forall x ensures x in s <==> x in t { BackwardsSame(s, t, x); }
  }

  lemma {:induction false} MoreOpen(nodes: seq<Node>, cells: seq<Cell>, open: set<nat>, list: seq<nat>)
    requires AllBound(nodes, cells, open)
    requires forall j {:trigger list[j]} :: 0 <= j < |list| ==> list[j] < |nodes|
    ensures AllBound(nodes, cells, open + Members(list))
  {
    hide NodeBound;
  }

  /** Both loops. Every run goes on as before, every RAM on the list has exactly the hard block's width, and the
      list has every RAM that was on it or was made, unless it was cut up and freed. */
  method IterateWidth(g: Netlist, rams: Rams, target: nat, list: seq<nat>, ghost open: set<nat>)
    returns (done: seq<nat>)
    requires g.Valid() && g.BoundBut(open) && (forall x {:trigger x in open} :: x in open ==> x !in list)
    requires target >= 1 && (rams.kind.SpMemory? || rams.kind.DpMemory?) && RamList(g.cells, rams, list)
    modifies g
    ensures g.Valid() && g.BoundBut(open + Members(done)) && RunEquivalent(old(g.Meaning()), g.Meaning())
    ensures forall x {:trigger x in done} :: x in done ==> Fitted(g.cells, rams, target, x)
    ensures Kept(old(g.cells), g.cells, list, done)
  {
    hide RunEquivalent, Ram, Filled, Backwards;
    ghost var a := g.Meaning();
    var narrow := CutMemories(g, rams, target, list, open);
    ghost var b := g.Meaning();
    MoreOpen(g.nodes, g.cells, open, narrow);
    done := FillMemories(g, rams, target, narrow, open + Members(narrow));
    SameMembers(narrow, done);
    forall x {:trigger g.cells[x]} | 0 <= x < |g.cells| && (x in list || |a.cells| <= x)
      ensures x in done || g.cells[x] == Freed {
      assert b.cells[x] == Freed || x in narrow;
      BackwardsSame(narrow, done, x);
    }
    forall x {:trigger a.cells[x]} | 0 <= x < |a.cells| && x !in list ensures g.cells[x] == a.cells[x] {
      assert x !in narrow && b.cells[x] == a.cells[x];
    }
    forall x {:trigger x in done} | x in done
      ensures Fitted(g.cells, rams, target, x) && (x in list || |a.cells| <= x) {
      BackwardsSame(narrow, done, x);
      var j :| 0 <= j < |narrow| && narrow[j] == x;
    }
    RunEquivalentTransitive(a, b, g.Meaning());
  }
}
