/** iterate_memories: first the RAMs of both lists are split in depth, then their banks are cut and filled up to the
    width of the hard blocks. */
module MemoryPass {
  import opened Wrappers
  import opened Bits
  import opened Semantics
  import opened Runs
  import opened Netlists
  import opened RippleBuild
  import opened MemoryPorts
  import opened BankSplit
  import opened SpSplit
  import opened MemoryTree
  import opened WidthParts
  import opened WidthPass
  import DpSplit
  import SpDepth
  import DpBuild

  /** A RAM as the depth pass takes it off the list. */
  predicate Accepted(c: Cell, kind: Kind) {
    if kind.SpMemory? then SpNode(c) else DpSplit.DpNode(c)
  }

  /** The ports without which the depth pass gives up. */
  predicate Ported(c: Cell, kind: Kind) {
    if kind.SpMemory? then HasSpPorts(c) else HasRole(c, Addr1)
  }

  ghost predicate Waiting(cells: seq<Cell>, kind: Kind, x: nat) {
    RamNode(cells, Rams(kind, 0, 0), x) && Accepted(cells[x], kind)
  }

  /** The list the pass starts from: no RAM twice. */
  ghost predicate WaitingList(cells: seq<Cell>, kind: Kind, list: seq<nat>) {
    Runs.Distinct(list) && forall j {:trigger list[j]} :: 0 <= j < |list| ==> Waiting(cells, kind, list[j])
  }

  /** Of the nodes taken from the list and those made since, exactly the memories are on the other list; no other node
      has changed. */
  ghost predicate Collected(before: seq<Cell>, cells: seq<Cell>, taken: seq<nat>, done: seq<nat>) {
    && |before| <= |cells|
    && (forall x {:trigger cells[x]} :: 0 <= x < |cells| && (x in taken || |before| <= x) && IsMemory(cells[x]) ==>
      x in done)
    && (forall x {:trigger x in done} :: x in done ==> x in taken || |before| <= x)
    && (forall x {:trigger before[x]} :: 0 <= x < |before| && x !in taken ==> cells[x] == before[x])
  }

  /** The banks made so far are shallow, and none of them is still to be split. */
  ghost predicate Splitting(cells: seq<Cell>, rams: Rams, list: seq<nat>, i: nat, done: seq<nat>) {
    && i <= |list| && WaitingList(cells, rams.kind, list[i..]) && Runs.Distinct(done)
    && (forall j {:trigger done[j]} :: 0 <= j < |done| ==> RamNode(cells, rams, done[j]) && done[j] !in list[i..])
  }

  // ----- a bank is a RAM -----

  /** A memory with fewer address pins and the same data pins is as good a RAM. */
  lemma {:induction false} ShrunkRam(c: Cell, b: Cell, k: nat, d: nat)
    requires Ram(c, d) && Shrunk(c, b, k) && PortShape(b)
    ensures Ram(b, d)
  {
    hide Offset, FindPort;
    if c.kind.SpMemory? {
      assert Accesses(c.kind)[0].data == Data;
      SameDataPort(c, b, Data, d);
    } else {
      assert Accesses(c.kind)[0].data == Data1 && Accesses(c.kind)[1].data == Data2;
      SameDataPort(c, b, Data1, d);
      SameDataPort(c, b, Data2, d);
    }
  }

  lemma {:induction false} SameDataPort(c: Cell, b: Cell, role: Role, d: nat)
    requires PortShape(c) && PortShape(b) && HasRole(c, role) && c.inPorts[FindPort(c.inPorts, role)].width == d >= 1
    requires RoleSlots(b, role) == RoleSlots(c, role)
    ensures HasRole(b, role)
    ensures forall k {:trigger b.inPorts[k]} :: 0 <= k < |b.inPorts| && b.inPorts[k].role == role ==>
      b.inPorts[k].width == d
  {
    PortSlots(c, FindPort(c.inPorts, role));
    if HasRole(b, role) { PortSlots(b, FindPort(b.inPorts, role)); }
    forall k {:trigger b.inPorts[k]} | 0 <= k < |b.inPorts| && b.inPorts[k].role == role
      ensures k == FindPort(b.inPorts, role) {
      FindPortIs(b.inPorts, role, k);
    }
  }

  lemma {:induction false} LeafIsRam(a: NL, b: NL, n: nat, rams: Rams, leaves: seq<nat>, j: nat)
    requires Tree(a, b, n, rams.depth, leaves) && Waiting(a.cells, rams.kind, n) && rams.pad == a.pad && j < |leaves|
    ensures RamNode(b.cells, rams, leaves[j]) && (leaves[j] == n || |a.cells| <= leaves[j])
  {
    hide Ram, RunEquivalent, PortShape, LiveBits, Accepted;
    var c, k := a.cells[n], Excess(a.cells[n], rams.depth, a.pad);
    assert LeafOf(c, b.cells, leaves[j], n, |a.cells|, k);
    var x := b.cells[leaves[j]];
    ShrunkRam(c, x, k, WidthPass.Width(c));
    RamWidth(x, WidthPass.Width(c));
    LeafDepth(c, x, rams.depth, a.pad);
  }

  // ----- one RAM of the list -----

  /** The banks of a RAM come to the other list. */
  lemma {:induction false} TreeNext(a: NL, b: NL, rams: Rams, list: seq<nat>, i: nat, done: seq<nat>, leaves: seq<nat>)
    requires i < |list| && Splitting(a.cells, rams, list, i, done) && rams.pad == a.pad
    requires Tree(a, b, list[i], rams.depth, leaves)
    ensures Splitting(b.cells, rams, list, i + 1, leaves + done)
  {
    hide RamNode, Accepted, RunEquivalent, LeavesOf, WellFormed;
    var n, rest, next, done' := list[i], list[i..], list[i + 1..], leaves + done;
    assert rest[0] == n && rest[1..] == next;
    assert Waiting(a.cells, rams.kind, rest[0]);
    forall j {:trigger next[j]} | 0 <= j < |next|
      ensures Waiting(b.cells, rams.kind, next[j]) && next[j] < |a.cells| && next[j] != n {
      assert next[j] == rest[j + 1];
      WaitingStill(a.cells, b.cells, n, rams.kind, next[j]);
    }
    forall j {:trigger done'[j]} | 0 <= j < |done'| ensures RamNode(b.cells, rams, done'[j]) && done'[j] !in next {
      if j < |leaves| {
        LeafIsRam(a, b, n, rams, leaves, j);
      } else {
        assert done'[j] == done[j - |leaves|];
        RamStill(a.cells, b.cells, n, rams, done[j - |leaves|]);
      }
    }
    BanksDistinct(a, b, n, rams, leaves, done, rest);
  }

  lemma {:induction false} RamStill(a: seq<Cell>, b: seq<Cell>, n: nat, rams: Rams, x: nat)
    requires OtherCells(a, b, n) && RamNode(a, rams, x) && x != n
    ensures RamNode(b, rams, x) && x < |a|
  {
    hide Ram, Shallow;
    assert b[x] == a[x];
  }

  lemma {:induction false} WaitingStill(a: seq<Cell>, b: seq<Cell>, n: nat, kind: Kind, x: nat)
    requires OtherCells(a, b, n) && Waiting(a, kind, x) && x != n
    ensures Waiting(b, kind, x) && x < |a|
  {
    hide Accepted;
    RamStill(a, b, n, Rams(kind, 0, 0), x);
    assert b[x] == a[x];
  }

  lemma {:induction false} BanksDistinct(a: NL, b: NL, n: nat, rams: Rams, leaves: seq<nat>, done: seq<nat>,
                                         rest: seq<nat>)
    requires Tree(a, b, n, rams.depth, leaves) && Waiting(a.cells, rams.kind, n) && rams.pad == a.pad
    requires Runs.Distinct(done) && n in rest
    requires forall j {:trigger done[j]} :: 0 <= j < |done| ==> RamNode(a.cells, rams, done[j]) && done[j] !in rest
    ensures Runs.Distinct(leaves + done)
  {
    hide Ram, Shallow, Accepted, RunEquivalent, WellFormed, LeafOf;
    forall j {:trigger leaves[j]} | 0 <= j < |leaves| ensures leaves[j] == n || |a.cells| <= leaves[j] {
      LeafIsRam(a, b, n, rams, leaves, j);
    }
    var all := leaves + done;
    forall p, q | 0 <= p < q < |all| ensures all[p] != all[q] {
      if q >= |leaves| { assert RamNode(a.cells, rams, done[q - |leaves|]); }
    }
  }

  lemma {:induction false} CollectedNext(before: seq<Cell>, a: NL, b: NL, n: nat, split: nat, leaves: seq<nat>,
                                         taken: seq<nat>, done: seq<nat>)
    requires Collected(before, a.cells, taken, done) && Tree(a, b, n, split, leaves)
    ensures Collected(before, b.cells, taken + [n], leaves + done)
  {
    hide RunEquivalent, WellFormed;
    var c := a.cells[n];
    forall x {:trigger b.cells[x]} |
      0 <= x < |b.cells| && (x in taken + [n] || |before| <= x) && IsMemory(b.cells[x])
      ensures x in leaves + done {
      if x != n && x < |a.cells| { assert b.cells[x] == a.cells[x]; }
    }
    forall x {:trigger x in leaves} | x in leaves ensures x == n || |before| <= x {
      var j :| 0 <= j < |leaves| && leaves[j] == x;
      assert LeafOf(c, b.cells, leaves[j], n, |a.cells|, Excess(c, split, a.pad));
    }
    forall x {:trigger before[x]} | 0 <= x < |before| && x !in taken + [n] ensures b.cells[x] == before[x] {
      assert a.cells[x] == before[x] && b.cells[x] == a.cells[x];
    }
  }

  /** One RAM of the list, single-port or dual-port. */
  method SplitMemory(g: Netlist, rams: Rams, ghost list: seq<nat>, ghost i: nat, n: nat, done: seq<nat>,
                     ghost before: seq<Cell>) returns (ok: bool, done': seq<nat>)
    requires g.Ready() && WellFormed(g.Meaning()) && (rams.kind.SpMemory? || rams.kind.DpMemory?)
    requires rams.depth >= 1 && rams.pad == g.padNet
    requires i < |list| && list[i] == n && Splitting(g.cells, rams, list, i, done)
    requires Collected(before, g.cells, list[..i], done)
    modifies g
    ensures g.Ready() && WellFormed(g.Meaning()) && RunEquivalent(old(g.Meaning()), g.Meaning())
    ensures n < |old(g.cells)| && (ok <==> Ported(old(g.cells[n]), rams.kind))
    ensures ok ==> Splitting(g.cells, rams, list, i + 1, done') && Collected(before, g.cells, list[..i + 1], done')
    ensures ok ==> OtherCells(old(g.cells), g.cells, n)
  {
    hide RunEquivalent, LeavesOf, WellFormed, Shrunk, NoOtherMemory, LiveBits, Ram, Shallow;
    assert list[i..][0] == n && list[..i + 1] == list[..i] + [n];
    ghost var a := g.Meaning();
    RunEquivalentReflexive(a);
    ghost var leaves;
    if rams.kind.SpMemory? {
      ok, done', leaves := SpDepth.SplitSpMemoryDepth(g, n, rams.depth, done);
    } else {
      ok, done', leaves := DpBuild.SplitDpMemoryDepth(g, n, rams.depth, done);
    }
    if ok {
      TreeNext(a, g.Meaning(), rams, list, i, done, leaves);
      CollectedNext(before, a, g.Meaning(), n, rams.depth, leaves, list[..i], done);
    }
  }

  // ----- the whole list -----

  lemma {:induction false} SplittingDone(cells: seq<Cell>, rams: Rams, list: seq<nat>, done: seq<nat>)
    requires Splitting(cells, rams, list, |list|, done)
    ensures RamList(cells, rams, done)
  {
  }

  lemma {:induction false} SplittingStart(cells: seq<Cell>, rams: Rams, list: seq<nat>)
    requires WaitingList(cells, rams.kind, list)
    ensures Splitting(cells, rams, list, 0, []) && Collected(cells, cells, list[..0], [])
    ensures forall j {:trigger list[j]} :: 0 <= j < |list| ==> list[j] < |cells|
  {
    hide Ram, Shallow, Accepted;
    assert list[0..] == list;
  }

  /** A RAM still on the list is as it was. */
  lemma {:induction false} NotYetTaken(before: seq<Cell>, cells: seq<Cell>, kind: Kind, list: seq<nat>, i: nat,
                                       done: seq<nat>)
    requires i < |list| && WaitingList(before, kind, list) && Collected(before, cells, list[..i], done)
    ensures list[i] < |before| <= |cells| && cells[list[i]] == before[list[i]]
  {
    hide Ram, Shallow, Accepted;
    assert Waiting(before, kind, list[i]);
    assert list[i] !in list[..i];
  }

  /** The depth loop. A RAM without the ports it needs ends the pass. */
  method SplitMemories(g: Netlist, rams: Rams, list: seq<nat>) returns (ok: bool, done: seq<nat>)
    requires g.Ready() && WellFormed(g.Meaning()) && (rams.kind.SpMemory? || rams.kind.DpMemory?)
    requires rams.depth >= 1 && rams.pad == g.padNet && WaitingList(g.cells, rams.kind, list)
    modifies g
    ensures g.Ready() && WellFormed(g.Meaning()) && RunEquivalent(old(g.Meaning()), g.Meaning())
    ensures ok <==> AllPorted(old(g.cells), rams.kind, list)
    ensures ok ==> RamList(g.cells, rams, done) && Collected(old(g.cells), g.cells, list, done)
  {
    hide RunEquivalent, Splitting, Collected, Ported, WaitingList, WellFormed;
    ghost var a := g.Meaning();
    RunEquivalentReflexive(a);
    SplittingStart(g.cells, rams, list);
    ok, done := true, [];
    var i := 0;
    while i < |list| && ok
      invariant i <= |list| && g.Ready() && WellFormed(g.Meaning()) && RunEquivalent(a, g.Meaning())
      invariant forall j {:trigger list[j]} :: 0 <= j < |list| ==> list[j] < |a.cells|
      invariant ok ==> Splitting(g.cells, rams, list, i, done) && Collected(a.cells, g.cells, list[..i], done)
      invariant ok ==> forall j {:trigger list[j]} :: 0 <= j < i ==> Ported(a.cells[list[j]], rams.kind)
      invariant !ok ==> exists j {:trigger list[j]} :: 0 <= j < |list| && !Ported(a.cells[list[j]], rams.kind)
    {
      ghost var b := g.Meaning();
      NotYetTaken(a.cells, g.cells, rams.kind, list, i, done);
      ok, done := SplitMemory(g, rams, list, i, list[i], done, a.cells);
      RunEquivalentTransitive(a, b, g.Meaning());
      i := i + 1;
    }
    if ok {
      assert list[..|list|] == list;
      SplittingDone(g.cells, rams, list, done);
    }
  }

  // ----- both lists -----

  /** The lists between two loops: single-port and dual-port RAMs of the depth asked for. */
  ghost predicate BothLists(cells: seq<Cell>, depth: nat, pad: nat, sp: seq<nat>, dp: seq<nat>) {
    RamList(cells, Rams(SpMemory, depth, pad), sp) && RamList(cells, Rams(DpMemory, depth, pad), dp)
  }

  /** A list outlives a loop over RAMs of the other kind. */
  lemma {:induction false} ListStays(before: seq<Cell>, cells: seq<Cell>, rams: Rams, list: seq<nat>, other: Kind,
                                     taken: seq<nat>)
    requires RamList(before, rams, list) && other != rams.kind && |before| <= |cells|
    requires forall j {:trigger taken[j]} :: 0 <= j < |taken| ==>
      taken[j] < |before| && before[taken[j]].kind == other
    requires forall x {:trigger before[x]} :: 0 <= x < |before| && x !in taken ==> cells[x] == before[x]
    ensures RamList(cells, rams, list)
    ensures forall j {:trigger list[j]} :: 0 <= j < |list| ==> list[j] !in taken && list[j] < |before|
  {
    hide Ram, Shallow;
    forall j {:trigger list[j]} | 0 <= j < |list|
      ensures RamNode(cells, rams, list[j]) && list[j] !in taken && list[j] < |before| {
      assert RamNode(before, rams, list[j]);
    }
  }

  lemma {:induction false} WaitingStays(before: seq<Cell>, cells: seq<Cell>, kind: Kind, list: seq<nat>, other: Kind,
                                        taken: seq<nat>, done: seq<nat>)
    requires WaitingList(before, kind, list) && WaitingList(before, other, taken) && other != kind
    requires Collected(before, cells, taken, done)
    ensures WaitingList(cells, kind, list)
    ensures forall j {:trigger list[j]} :: 0 <= j < |list| ==>
      list[j] < |before| <= |cells| && cells[list[j]] == before[list[j]]
  {
    hide Ram, Shallow, Accepted;
    forall x {:trigger x in taken} | x in taken ensures x < |before| && before[x].kind == other {
      var j :| 0 <= j < |taken| && taken[j] == x;
      assert Waiting(before, other, taken[j]);
    }
    forall j {:trigger list[j]} | 0 <= j < |list|
      ensures list[j] < |before| && cells[list[j]] == before[list[j]] && Waiting(cells, kind, list[j]) {
      assert Waiting(before, kind, list[j]) && list[j] !in taken;
    }
  }

  /** A loop over part of the lists: `left` is what it does not look at. */
  lemma {:induction false} CollectedThen(a: seq<Cell>, b: seq<Cell>, c: seq<Cell>, taken: seq<nat>, left: seq<nat>,
                                         mid: seq<nat>, done: seq<nat>)
    requires Collected(a, b, taken, mid + left) && Collected(b, c, mid, done)
    ensures Collected(a, c, taken, left + done)
  {
    hide IsMemory;
    forall x {:trigger c[x]} | 0 <= x < |b| && x !in mid ensures c[x] == b[x] {
      assert c[x] == b[x];
    }
    forall x {:trigger c[x]} | 0 <= x < |c| && (x in taken || |a| <= x) && IsMemory(c[x]) ensures x in left + done {
      assert x in mid + left ==> x in mid || x in left;
    }
    forall x {:trigger x in left + done} | x in left + done ensures x in taken || |a| <= x {
      assert x in left ==> x in mid + left;
      assert x in mid ==> x in mid + left;
    }
    forall x {:trigger a[x]} | 0 <= x < |a| && x !in taken ensures c[x] == a[x] {
      assert x in mid ==> x in mid + left;
      assert b[x] == a[x] && c[x] == b[x];
    }
  }

  lemma {:induction false} NothingTaken(cells: seq<Cell>, list: seq<nat>)
    ensures Collected(cells, cells, list, list)
  {
  }

  lemma {:induction false} KeptCollected(a: seq<Cell>, b: seq<Cell>, taken: seq<nat>, done: seq<nat>)
    requires Kept(a, b, taken, done)
    ensures Collected(a, b, taken, done)
  {
  }

  predicate AllPorted(cells: seq<Cell>, kind: Kind, list: seq<nat>) {
    forall j {:trigger list[j]} :: 0 <= j < |list| ==> list[j] < |cells| && Ported(cells[list[j]], kind)
  }

  lemma {:induction false} BanksStay(before: seq<Cell>, cells: seq<Cell>, rams: Rams, list: seq<nat>, other: Kind,
                                     taken: seq<nat>, done: seq<nat>)
    requires RamList(before, rams, list) && other != rams.kind
    requires WaitingList(before, other, taken) && Collected(before, cells, taken, done)
    ensures RamList(cells, rams, list)
  {
    hide RamList, Accepted, Ram, Shallow;
    forall j {:trigger taken[j]} | 0 <= j < |taken| ensures taken[j] < |before| && before[taken[j]].kind == other {
      assert Waiting(before, other, taken[j]);
    }
    ListStays(before, cells, rams, list, other, taken);
  }

  /** The depth loops. */
  method SplitBoth(g: Netlist, size: nat, sp: seq<nat>, dp: seq<nat>) returns (ok: bool, sp': seq<nat>, dp': seq<nat>)
    requires g.Ready() && WellFormed(g.Meaning()) && size >= 1
    requires WaitingList(g.cells, SpMemory, sp) && WaitingList(g.cells, DpMemory, dp)
    modifies g
    ensures g.Ready() && WellFormed(g.Meaning()) && RunEquivalent(old(g.Meaning()), g.Meaning())
    ensures ok <==> AllPorted(old(g.cells), SpMemory, sp) && AllPorted(old(g.cells), DpMemory, dp)
    ensures ok ==> BothLists(g.cells, size, g.padNet, sp', dp') && Collected(old(g.cells), g.cells, sp + dp, sp' + dp')
  {
    hide RunEquivalent, WellFormed, Collected, RamList, WaitingList, Ported;
    ghost var a := g.Meaning();
    dp' := dp;
    ok, sp' := SplitMemories(g, Rams(SpMemory, size, g.padNet), sp);
    if !ok { return; }
    ghost var b := g.Meaning();
    WaitingStays(a.cells, b.cells, DpMemory, dp, SpMemory, sp, sp');
    ok, dp' := SplitMemories(g, Rams(DpMemory, size, g.padNet), dp);
    RunEquivalentTransitive(a, b, g.Meaning());
    if ok {
      BanksStay(b.cells, g.cells, Rams(SpMemory, size, g.padNet), sp', DpMemory, dp, dp');
      NothingTaken(a.cells, sp + dp);
      CollectedThen(a.cells, a.cells, b.cells, sp + dp, dp, sp, sp');
      CollectedThen(a.cells, b.cells, g.cells, sp + dp, sp', dp, dp');
    }
  }

  // ----- the width loops over both lists -----

  lemma {:induction false} NoneOpen(nodes: seq<Node>, cells: seq<Cell>)
    requires |cells| == |nodes| && forall n {:trigger nodes[n]} :: 0 <= n < |nodes| ==> NodeBound(nodes[n], cells[n])
    ensures AllBound(nodes, cells, {})
  {
    hide NodeBound;
  }

  /** What the loops over the single-port RAMs leave to those over the dual-port RAMs. */
  lemma {:induction false} OtherListReady(a: seq<Cell>, b: seq<Cell>, size: nat, pad: nat, sp: seq<nat>, dp: seq<nat>,
                                          sp': seq<nat>)
    requires BothLists(a, size, pad, sp, dp) && Kept(a, b, sp, sp')
    ensures RamList(b, Rams(DpMemory, size, pad), dp)
    ensures forall x {:trigger x in Members(sp')} :: x in Members(sp') ==> x !in dp
  {
    hide Ram, Shallow;
    var rams := Rams(SpMemory, size, pad);
    forall j {:trigger sp[j]} | 0 <= j < |sp| ensures sp[j] < |a| && a[sp[j]].kind == SpMemory {
      assert RamNode(a, rams, sp[j]);
    }
    ListStays(a, b, Rams(DpMemory, size, pad), dp, SpMemory, sp);
  }

  /** The filled RAMs of the first list are not touched by the loops over the second one. */
  lemma {:induction false} FittedStays(b: seq<Cell>, c: seq<Cell>, rams: Rams, target: nat, sp': seq<nat>,
                                       dp: seq<nat>, dp': seq<nat>)
    requires Kept(b, c, dp, dp')
    requires forall x {:trigger x in Members(sp')} :: x in Members(sp') ==> x !in dp
    requires forall x {:trigger x in sp'} :: x in sp' ==> Fitted(b, rams, target, x)
    ensures forall x {:trigger x in sp'} :: x in sp' ==> Fitted(c, rams, target, x)
  {
    hide Shallow;
    forall x {:trigger x in sp'} | x in sp' ensures Fitted(c, rams, target, x) {
      assert Fitted(b, rams, target, x) && x in Members(sp');
      assert c[x] == b[x];
    }
  }

  /** The width loops. */
  method WidenBoth(g: Netlist, size: nat, spTarget: nat, dpTarget: nat, sp: seq<nat>, dp: seq<nat>)
    returns (sp': seq<nat>, dp': seq<nat>)
    requires g.Ready() && spTarget >= 1 && dpTarget >= 1 && BothLists(g.cells, size, g.padNet, sp, dp)
    modifies g
    ensures g.Valid() && RunEquivalent(old(g.Meaning()), g.Meaning())
    ensures forall x {:trigger x in sp'} :: x in sp' ==> Fitted(g.cells, Rams(SpMemory, size, g.padNet), spTarget, x)
    ensures forall x {:trigger x in dp'} :: x in dp' ==> Fitted(g.cells, Rams(DpMemory, size, g.padNet), dpTarget, x)
    ensures Collected(old(g.cells), g.cells, sp + dp, sp' + dp')
  {
    hide RunEquivalent, Collected, RamList, Kept, Fitted, AllBound, Netlist.Valid;
    ghost var a := g.Meaning();
    NoneOpen(g.nodes, g.cells);
    sp' := IterateWidth(g, Rams(SpMemory, size, g.padNet), spTarget, sp, {});
    ghost var b := g.Meaning();
    OtherListReady(a.cells, b.cells, size, g.padNet, sp, dp, sp');
    assert {} + Members(sp') == Members(sp');
    dp' := IterateWidth(g, Rams(DpMemory, size, g.padNet), dpTarget, dp, Members(sp'));
    RunEquivalentTransitive(a, b, g.Meaning());
    FittedStays(b.cells, g.cells, Rams(SpMemory, size, g.padNet), spTarget, sp', dp, dp');
    KeptCollected(a.cells, b.cells, sp, sp');
    KeptCollected(b.cells, g.cells, dp, dp');
    NothingTaken(a.cells, sp + dp);
    CollectedThen(a.cells, a.cells, b.cells, sp + dp, dp, sp, sp');
    CollectedThen(a.cells, b.cells, g.cells, sp + dp, sp', dp, dp');
  }

  // ----- the pass -----

  /** Without a split every RAM stays on its list. */
  lemma {:induction false} Unsplit(cells: seq<Cell>, rams: Rams, list: seq<nat>)
    requires WaitingList(cells, rams.kind, list) && rams.depth == 0
    ensures RamList(cells, rams, list)
  {
    hide Ram, Accepted;
    forall j {:trigger list[j]} | 0 <= j < |list| ensures RamNode(cells, rams, list[j]) {
      assert Waiting(cells, rams.kind, list[j]);
    }
  }

  /** The whole pass. `size` is the depth to split to, 0 when RAMs are not split in depth; the targets are the widths of
      the hard blocks. Unless a RAM lacks a port it needs, every RAM of the lists and every one made from them ends up
      on the list of its kind, with exactly the hard block's width on every data port and no deeper than asked; no
      other node has changed; and every run of the netlist is as it was. */
  method IterateMemories(g: Netlist, size: nat, spTarget: nat, dpTarget: nat, sp: seq<nat>, dp: seq<nat>)
    returns (ok: bool, sp': seq<nat>, dp': seq<nat>)
    requires g.Ready() && WellFormed(g.Meaning()) && spTarget >= 1 && dpTarget >= 1
    requires WaitingList(g.cells, SpMemory, sp) && WaitingList(g.cells, DpMemory, dp)
    modifies g
    ensures g.Valid() && RunEquivalent(old(g.Meaning()), g.Meaning())
    ensures ok <==> size == 0 || (AllPorted(old(g.cells), SpMemory, sp) && AllPorted(old(g.cells), DpMemory, dp))
    ensures ok ==> forall x {:trigger x in sp'} :: x in sp' ==>
      Fitted(g.cells, Rams(SpMemory, size, g.padNet), spTarget, x)
    ensures ok ==> forall x {:trigger x in dp'} :: x in dp' ==>
      Fitted(g.cells, Rams(DpMemory, size, g.padNet), dpTarget, x)
    ensures ok ==> Collected(old(g.cells), g.cells, sp + dp, sp' + dp')
  {
    hide RunEquivalent, WellFormed, Collected, AllPorted, Fitted, RamList, WaitingList;
    ghost var a := g.Meaning();
    ok, sp', dp' := true, sp, dp;
    if size != 0 {
      ok, sp', dp' := SplitBoth(g, size, sp, dp);
      if !ok { return; }
    } else {
      RunEquivalentReflexive(a);
      NothingTaken(a.cells, sp + dp);
      Unsplit(a.cells, Rams(SpMemory, size, g.padNet), sp);
      Unsplit(a.cells, Rams(DpMemory, size, g.padNet), dp);
    }
    ghost var b, mid := g.Meaning(), sp' + dp';
    sp', dp' := WidenBoth(g, size, spTarget, dpTarget, sp', dp');
    RunEquivalentTransitive(a, b, g.Meaning());
    assert mid + [] == mid && [] + (sp' + dp') == sp' + dp';
    CollectedThen(a.cells, b.cells, g.cells, sp + dp, [], mid, sp' + dp');
  }
}
