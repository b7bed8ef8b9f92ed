/** The tree of banks that repeated depth splitting leaves behind. */
module MemoryTree {
  import opened Wrappers
  import opened Bits
  import opened Semantics
  import opened Runs
  import opened Netlists
  import opened RippleCells
  import opened RippleBuild
  import opened MemoryPorts
  import opened BankSplit

  /** Address bits in use: those of the first access port. */
  function LiveBits(c: Cell, pad: nat): (n: nat)
    requires IsMemory(c)
  {
    Live(RoleSlots(c, Accesses(c.kind)[0].addr), pad)
  }

  /** How many address bits the split takes away. */
  function Excess(c: Cell, split: nat, pad: nat): (k: nat)
    requires IsMemory(c)
  {
    if LiveBits(c, pad) <= split then 0 else LiveBits(c, pad) - split
  }

  /** `b` is memory `c` without its `k` low address bits. */
  ghost predicate Shrunk(c: Cell, b: Cell, k: nat) {
    && b.kind == c.kind && b.outPorts == c.outPorts && |b.outs| == |c.outs|
    && forall j {:trigger Accesses(c.kind)[j]} :: 0 <= j < |Accesses(c.kind)| ==>
         && RoleSlots(b, Accesses(c.kind)[j].addr) == Drop(RoleSlots(c, Accesses(c.kind)[j].addr), k)
         && RoleSlots(b, Accesses(c.kind)[j].data) == RoleSlots(c, Accesses(c.kind)[j].data)
  }

  function Drop(s: seq<Option<nat>>, k: nat): seq<Option<nat>> {
    if k <= |s| then s[k..] else []
  }

  /** A leaf made from node `n` when the netlist had `c0` nodes. */
  ghost predicate LeafOf(c: Cell, cells: seq<Cell>, x: nat, n: nat, c0: nat, k: nat) {
    (x == n || x >= c0) && x < |cells| && Shrunk(c, cells[x], k) && PortShape(cells[x])
  }

  /** The leaves: one bank for every value of the address bits taken away, each `split` live bits deep or, if
      nothing was taken away, as deep as before. */
  ghost predicate LeavesOf(c: Cell, cells: seq<Cell>, leaves: seq<nat>, n: nat, c0: nat, split: nat, pad: nat)
    requires IsMemory(c)
  {
    && |leaves| == Pow2(Excess(c, split, pad)) && Distinct(leaves)
    && forall i :: 0 <= i < |leaves| ==> LeafOf(c, cells, leaves[i], n, c0, Excess(c, split, pad))
  }

  /** Node `n` and the nodes from `c0` on: no memory among them but the leaves. */
  ghost predicate NoOtherMemory(cells: seq<Cell>, n: nat, c0: nat, leaves: seq<nat>) {
    forall x {:trigger cells[x]} :: 0 <= x < |cells| && (x == n || c0 <= x) && IsMemory(cells[x]) ==> x in leaves
  }

  /** Splitting memory `n` of `a` down to `split` live address bits may give `b`. */
  ghost predicate Tree(a: NL, b: NL, n: nat, split: nat, leaves: seq<nat>) {
    && n < |a.cells| && IsMemory(a.cells[n])
    && RunEquivalent(a, b) && WellFormed(b) && b.pad == a.pad
    && OtherCells(a.cells, b.cells, n)
    && LeavesOf(a.cells[n], b.cells, leaves, n, |a.cells|, split, a.pad)
    && NoOtherMemory(b.cells, n, |a.cells|, leaves)
  }

  /** One level: node `n` became bank `n` and bank `|a.cells|`. */
  ghost predicate OneLevel(a: NL, b: NL, n: nat) {
    && n < |a.cells| < |b.cells| && IsMemory(a.cells[n])
    && RunEquivalent(a, b) && WellFormed(b) && b.pad == a.pad
    && OtherCells(a.cells, b.cells, n)
    && Shrunk(a.cells[n], b.cells[n], 1) && Shrunk(a.cells[n], b.cells[|a.cells|], 1)
    && forall x {:trigger b.cells[x]} :: |a.cells| < x < |b.cells| ==> !IsMemory(b.cells[x])
  }

  lemma {:induction false} LiveOfTail(s: seq<Option<nat>>, pad: nat)
    ensures Live(s, pad) > 0 ==> |s| > 0 && Live(s[1..], pad) == Live(s, pad) - 1
  {
  }

  lemma {:induction false} LiveOfDrop(s: seq<Option<nat>>, k: nat, pad: nat)
    requires k <= Live(s, pad)
    ensures Live(Drop(s, k), pad) == Live(s, pad) - k
  {
    if k > 0 {
      LiveOfDrop(s, k - 1, pad);
      assert s[k - 1..][1..] == s[k..];
      LiveOfTail(s[k - 1..], pad);
    } else {
      assert s[0..] == s;
    }
  }

  /** A leaf has at most `split` live bits. */
  lemma {:induction false} LeafDepth(c: Cell, b: Cell, split: nat, pad: nat)
    requires IsMemory(c) && Shrunk(c, b, Excess(c, split, pad))
    ensures IsMemory(b) && LiveBits(b, pad) == (if LiveBits(c, pad) <= split then LiveBits(c, pad) else split)
  {
    assert Accesses(c.kind)[0] == Accesses(b.kind)[0];
    LiveOfDrop(RoleSlots(c, Accesses(c.kind)[0].addr), Excess(c, split, pad), pad);
  }

  /** Words of the listed memories, counting live address bits. */
  ghost function Words(cells: seq<Cell>, leaves: seq<nat>, pad: nat): (w: nat)
    requires forall i :: 0 <= i < |leaves| ==> leaves[i] < |cells| && IsMemory(cells[leaves[i]])
  {
    if leaves == [] then 0 else Pow2(LiveBits(cells[leaves[0]], pad)) + Words(cells, leaves[1..], pad)
  }

  lemma {:induction false} EqualWords(cells: seq<Cell>, leaves: seq<nat>, pad: nat, d: nat)
    requires forall i :: 0 <= i < |leaves| ==> leaves[i] < |cells| && IsMemory(cells[leaves[i]])
    requires forall i :: 0 <= i < |leaves| ==> LiveBits(cells[leaves[i]], pad) == d
    ensures Words(cells, leaves, pad) == Shift(|leaves|, d)
  {
    ShiftOne(d);
    if leaves != [] {
      EqualWords(cells, leaves[1..], pad, d);
      ShiftAdd(1, |leaves| - 1, d);
    }
  }

  /** Every leaf is as deep as the split allows. */
  lemma {:induction false} LeavesDepth(c: Cell, cells: seq<Cell>, leaves: seq<nat>, n: nat, c0: nat, split: nat,
                                       pad: nat, d: nat)
    requires IsMemory(c) && LeavesOf(c, cells, leaves, n, c0, split, pad)
    requires d == if LiveBits(c, pad) <= split then LiveBits(c, pad) else split
    ensures forall i :: 0 <= i < |leaves| ==>
      leaves[i] < |cells| && IsMemory(cells[leaves[i]]) && LiveBits(cells[leaves[i]], pad) == d
  {
    forall i | 0 <= i < |leaves|
      ensures leaves[i] < |cells| && IsMemory(cells[leaves[i]]) && LiveBits(cells[leaves[i]], pad) == d
    {
      assert LeafOf(c, cells, leaves[i], n, c0, Excess(c, split, pad));
      LeafDepth(c, cells[leaves[i]], split, pad);
    }
  }

  /** No word is lost or added: the banks hold together as many words as the memory did. */
  lemma {:induction false} WordsConserved(c: Cell, cells: seq<Cell>, leaves: seq<nat>, n: nat, c0: nat, split: nat,
                                          pad: nat)
    requires IsMemory(c) && LeavesOf(c, cells, leaves, n, c0, split, pad)
    ensures forall i :: 0 <= i < |leaves| ==> leaves[i] < |cells| && IsMemory(cells[leaves[i]])
    ensures forall i :: 0 <= i < |leaves| && LiveBits(c, pad) > split ==> LiveBits(cells[leaves[i]], pad) == split
    ensures Words(cells, leaves, pad) == Pow2(LiveBits(c, pad))
  {
    hide LeavesOf, LiveBits, Words, Excess, Shift, Pow2;
    var d := if LiveBits(c, pad) <= split then LiveBits(c, pad) else split;
    LeavesDepth(c, cells, leaves, n, c0, split, pad, d);
    LeavesCount(c, cells, leaves, n, c0, split, pad);
    EqualWords(cells, leaves, pad, d);
    ExcessShift(c, split, pad, d);
  }

  lemma {:induction false} LeavesCount(c: Cell, cells: seq<Cell>, leaves: seq<nat>, n: nat, c0: nat, split: nat,
                                       pad: nat)
    requires IsMemory(c) && LeavesOf(c, cells, leaves, n, c0, split, pad)
    ensures |leaves| == Pow2(Excess(c, split, pad))
  {
  }

  /** One bank per value of the bits taken away, each of the depth that is left. */
  lemma {:induction false} ExcessShift(c: Cell, split: nat, pad: nat, d: nat)
    requires IsMemory(c) && d == if LiveBits(c, pad) <= split then LiveBits(c, pad) else split
    ensures Shift(Pow2(Excess(c, split, pad)), d) == Pow2(LiveBits(c, pad))
  {
    hide LiveBits, Shift, Pow2;
    ShiftOne(Excess(c, split, pad));
    ShiftOne(LiveBits(c, pad));
    ShiftShift(1, d, Excess(c, split, pad));
  }

  lemma {:induction false} TreeLeaf(a: NL, n: nat, split: nat)
    requires WellFormed(a) && n < |a.cells| && IsMemory(a.cells[n]) && LiveBits(a.cells[n], a.pad) <= split
    requires PortShape(a.cells[n])
    ensures Tree(a, a, n, split, [n])
  {
    RunEquivalentReflexive(a);
  }

  lemma {:induction false} ShrunkTwice(c: Cell, b: Cell, d: Cell, k: nat)
    requires Shrunk(c, b, 1) && Shrunk(b, d, k)
    ensures Shrunk(c, d, k + 1)
  {
    forall j {:trigger Accesses(c.kind)[j]} | 0 <= j < |Accesses(c.kind)|
      ensures RoleSlots(d, Accesses(c.kind)[j].addr) == Drop(RoleSlots(c, Accesses(c.kind)[j].addr), k + 1)
      ensures RoleSlots(d, Accesses(c.kind)[j].data) == RoleSlots(c, Accesses(c.kind)[j].data)
    {
      assert Accesses(b.kind)[j] == Accesses(c.kind)[j];
    }
  }

  lemma {:induction false} BankExcess(c: Cell, b: Cell, split: nat, pad: nat)
    requires IsMemory(c) && Shrunk(c, b, 1) && LiveBits(c, pad) > split
    ensures IsMemory(b) && LiveBits(b, pad) == LiveBits(c, pad) - 1
    ensures Excess(c, split, pad) == Excess(b, split, pad) + 1
  {
    assert Accesses(c.kind)[0] == Accesses(b.kind)[0];
    LiveOfDrop(RoleSlots(c, Accesses(c.kind)[0].addr), 1, pad);
  }

  /** The two subtrees of a split together are its tree. */
  lemma {:induction false} TreeJoin(a: NL, b: NL, s: NL, d: NL, n: nat, h: nat, split: nat, l1: seq<nat>, l2: seq<nat>)
    requires OneLevel(a, b, n) && h == |a.cells| && LiveBits(a.cells[n], a.pad) > split
    requires Tree(b, s, n, split, l1) && Tree(s, d, h, split, l2)
    ensures Tree(a, d, n, split, l2 + l1)
  {
    hide LiveBits;
    var c := a.cells[n];
    RunEquivalentTransitive(a, b, s);
    RunEquivalentTransitive(a, s, d);
    BankExcess(c, b.cells[n], split, a.pad);
    BankExcess(c, b.cells[h], split, a.pad);
    assert s.cells[h] == b.cells[h];
    JoinedFrame(a, b, s, d, n, h);
    JoinedMemories(b.cells, s.cells, d.cells, n, h, l1, l2);
    LeftLeaves(c, b.cells, s.cells, d.cells, n, h, split, a.pad, l1);
    RightLeaves(c, b.cells, s.cells, d.cells, n, h, split, a.pad, l2);
    assert forall i {:trigger (l2 + l1)[i]} :: 0 <= i < |l2 + l1| ==>
      (l2 + l1)[i] == if i < |l2| then l2[i] else l1[i - |l2|];
  }

  lemma {:induction false} LeftLeaves(c: Cell, b: seq<Cell>, s: seq<Cell>, d: seq<Cell>, n: nat, h: nat, split: nat,
                                      pad: nat, l: seq<nat>)
    requires n < h < |b| && IsMemory(c) && Shrunk(c, b[n], 1) && LiveBits(c, pad) > split
    requires OtherCells(s, d, h) && IsMemory(b[n]) && LeavesOf(b[n], s, l, n, |b|, split, pad)
    ensures forall i :: 0 <= i < |l| ==> LeafOf(c, d, l[i], n, h, Excess(c, split, pad)) && l[i] != h && l[i] < |s|
  {
    hide LiveBits;
    BankExcess(c, b[n], split, pad);
    forall i | 0 <= i < |l|
      ensures LeafOf(c, d, l[i], n, h, Excess(c, split, pad)) && l[i] != h && l[i] < |s|
    {
      assert LeafOf(b[n], s, l[i], n, |b|, Excess(b[n], split, pad));
      assert d[l[i]] == s[l[i]];
      ShrunkTwice(c, b[n], d[l[i]], Excess(b[n], split, pad));
    }
  }

  lemma {:induction false} RightLeaves(c: Cell, b: seq<Cell>, s: seq<Cell>, d: seq<Cell>, n: nat, h: nat, split: nat,
                                       pad: nat, l: seq<nat>)
    requires n < h < |b| <= |s| && IsMemory(c) && Shrunk(c, b[h], 1) && LiveBits(c, pad) > split && s[h] == b[h]
    requires IsMemory(s[h]) && LeavesOf(s[h], d, l, h, |s|, split, pad)
    ensures forall i :: 0 <= i < |l| ==> LeafOf(c, d, l[i], n, h, Excess(c, split, pad)) && (l[i] == h || l[i] >= |s|)
  {
    hide LiveBits, Drop;
    BankExcess(c, b[h], split, pad);
    forall i | 0 <= i < |l|
      ensures LeafOf(c, d, l[i], n, h, Excess(c, split, pad)) && (l[i] == h || l[i] >= |s|)
    {
      assert LeafOf(s[h], d, l[i], h, |s|, Excess(s[h], split, pad));
      ShrunkTwice(c, b[h], d[l[i]], Excess(s[h], split, pad));
    }
  }

  lemma {:induction false} JoinedFrame(a: NL, b: NL, s: NL, d: NL, n: nat, h: nat)
    requires OtherCells(a.cells, b.cells, n) && OtherCells(b.cells, s.cells, n) && OtherCells(s.cells, d.cells, h)
    requires h == |a.cells|
    ensures OtherCells(a.cells, d.cells, n)
  {
    forall k {:trigger a.cells[k]} | 0 <= k < |a.cells| && k != n ensures d.cells[k] == a.cells[k] {
      assert b.cells[k] == a.cells[k] && s.cells[k] == b.cells[k];
    }
  }

  lemma {:induction false} JoinedMemories(b: seq<Cell>, s: seq<Cell>, d: seq<Cell>, n: nat, h: nat, l1: seq<nat>,
                                          l2: seq<nat>)
    requires n < h < |b| && OtherCells(b, s, n) && OtherCells(s, d, h)
    requires forall x {:trigger b[x]} :: h < x < |b| ==> !IsMemory(b[x])
    requires NoOtherMemory(s, n, |b|, l1) && NoOtherMemory(d, h, |s|, l2)
    ensures NoOtherMemory(d, n, h, l2 + l1)
  {
    forall x {:trigger s[x]} | h < x < |b| ensures !IsMemory(s[x]) {
      assert s[x] == b[x];
    }
    forall x {:trigger d[x]} | 0 <= x < |d| && (x == n || h <= x) && IsMemory(d[x]) ensures x in l2 + l1 {
      if x != h && x < |s| { assert d[x] == s[x]; }
    }
  }

  // ----- a bank split is one level of the tree -----

  lemma {:induction false} BankShrunk(c: Cell, b: Cell, m: Plan, upper: bool)
    requires BankOf(c, b, m, upper)
    ensures Shrunk(c, b, 1)
  {
    forall j {:trigger Accesses(c.kind)[j]} | 0 <= j < |Accesses(c.kind)|
      ensures RoleSlots(b, Accesses(c.kind)[j].addr) == Drop(RoleSlots(c, Accesses(c.kind)[j].addr), 1)
      ensures RoleSlots(b, Accesses(c.kind)[j].data) == RoleSlots(c, Accesses(c.kind)[j].data)
    {
      assert AccessOfBank(c, b, m, upper, j);
    }
  }

  lemma {:induction false} SplitWellFormed(a: NL, b: NL, n: nat, m: Plan)
    requires SplitOf(a, b, n, m) && WellFormed(a) && (forall tag :: m.has(tag) ==> m.at(tag) < b.nets)
    requires InRange(b.cells[n], b.nets) && InRange(b.cells[|a.cells|], b.nets)
    ensures WellFormed(b)
  {
    forall k | 0 <= k < |b.cells|
      ensures InRange(b.cells[k], b.nets)
    {
      if k < |a.cells| && k != n {
        assert b.cells[k] == a.cells[k] && InRange(a.cells[k], a.nets);
      } else if k > |a.cells| {
        assert InRange(a.cells[n], a.nets);
        GateInRange(a.cells[n], b.cells[k], m, a.nets, b.nets);
      }
    }
  }

  lemma {:induction false} GateInRange(c: Cell, x: Cell, m: Plan, nets: nat, nets': nat)
    requires InRange(c, nets) && nets <= nets' && Accounted(c, x, m) && (forall tag :: m.has(tag) ==> m.at(tag) < nets')
    ensures InRange(x, nets')
  {
    if tag :| GateReady(c, m, tag) && x == GateCell(c, m, tag) {
      if !tag.Nots? {
        PortInRange(c, FindPort(c.inPorts, Accesses(c.kind)[tag.k].addr), nets);
        PortInRange(c, FindPort(c.inPorts, Accesses(c.kind)[tag.k].we), nets);
        PortInRange(c, FindPort(c.inPorts, Clk), nets);
      }
    }
  }

  lemma {:induction false} SplitIsOneLevel(a: NL, b: NL, n: nat, m: Plan)
    requires SplitOf(a, b, n, m) && RunEquivalent(a, b) && WellFormed(b)
    ensures OneLevel(a, b, n)
  {
    BankShrunk(a.cells[n], b.cells[n], m, true);
    BankShrunk(a.cells[n], b.cells[|a.cells|], m, false);
    forall x {:trigger b.cells[x]} | |a.cells| < x < |b.cells| ensures !IsMemory(b.cells[x]) {
      assert Accounted(a.cells[n], b.cells[x], m);
    }
  }
}
