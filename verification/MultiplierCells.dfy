/** The node ids of the array multiplier and its creation. */
module MultiplierCells {
  import opened Wrappers
  import opened Bits
  import opened Semantics
  import opened Runs
  import opened Netlists
  import opened RippleCells
  import opened RippleBuild
  import opened Growth
  import opened BankSplit

  /** Ids of the partial-product gates, row by row, and of the adders. */
  datatype Array = Array(pps: seq<seq<nat>>, adders: seq<nat>)

  /** A multiplication node of the shape create_operation_node makes. */
  predicate MultNode(c: Cell) {
    && c.kind.Multiply? && TwoPort(c, |c.outs|) && c.inPorts[0].width >= 1 && c.inPorts[1].width >= 1
    && |c.outs| == c.inPorts[0].width + c.inPorts[1].width
  }

  function WidthA(c: Cell): nat
    requires MultNode(c)
  {
    c.inPorts[0].width
  }

  function WidthB(c: Cell): nat
    requires MultNode(c)
  {
    c.inPorts[1].width
  }

  /** The netlist with node `n` still as it was. */
  function Virtual(nl: NL, n: nat, c: Cell): NL {
    if n < |nl.cells| then nl.(cells := nl.cells[n := c]) else nl
  }

  const Bit2: Port := Port(Plain, 2)

  function AndCell(b: Option<nat>, a: Option<nat>, out: Option<nat>): Cell {
    Cell(LogicalAnd, [b, a], [out], [Bit2], [1])
  }

  function AdderCell(w: nat, ins: seq<Option<nat>>, outs: seq<Option<nat>>): Cell {
    Cell(Add, ins, outs, [Port(Plain, w), Port(Plain, w)], [w])
  }

  predicate HasPp(p: Array, i: int, j: int) {
    0 <= i < |p.pps| && 0 <= j < |p.pps[i]|
  }

  /** All ids are different, at least `c0` and below `top`. */
  ghost predicate IdsApart(p: Array, c0: nat, top: nat) {
    && (forall i, j {:trigger p.pps[i][j]} :: HasPp(p, i, j) ==> c0 <= p.pps[i][j] < top)
    && (forall i {:trigger p.adders[i]} :: 0 <= i < |p.adders| ==> c0 <= p.adders[i] < top)
    && (forall i, j, k, l {:trigger p.pps[i][j], p.pps[k][l]} ::
      HasPp(p, i, j) && HasPp(p, k, l) && p.pps[i][j] == p.pps[k][l] ==> i == k && j == l)
    && (forall i, k {:trigger p.adders[i], p.adders[k]} :: 0 <= i < k < |p.adders| ==> p.adders[i] != p.adders[k])
    && (forall i, j, k {:trigger p.pps[i][j], p.adders[k]} :: HasPp(p, i, j) && 0 <= k < |p.adders| ==>
      p.pps[i][j] != p.adders[k])
  }

  /** `rows` full rows and, with `cells` gates, one more. */
  predicate Sized(p: Array, a: nat, b: nat, rows: nat) {
    && |p.pps| == rows && (forall i :: 0 <= i < rows ==> |p.pps[i]| == a)
    && |p.adders| == (if rows < b then rows else b - 1)
  }

  ghost predicate Untouched(before: seq<Cell>, after: seq<Cell>) {
    |before| <= |after| && forall k {:trigger before[k]} :: 0 <= k < |before| ==> after[k] == before[k]
  }

  /** As created: nothing connected. */
  ghost predicate Created(cells: seq<Cell>, p: Array, a: nat) {
    && (forall i, j {:trigger p.pps[i][j]} :: HasPp(p, i, j) ==> CellIs(cells, p.pps[i][j], AndCell(None, None, None)))
    && (forall i {:trigger p.adders[i]} :: 0 <= i < |p.adders| ==>
      CellIs(cells, p.adders[i], AdderCell(a + 1, Nones(2 * a + 2), Nones(a + 1))))
  }

  /** A node without connections changes nothing. */
  method DeadNode(g: Netlist, kind: Kind, inPorts: seq<Port>, numIns: nat, outPorts: seq<nat>,
                  numOuts: nat) returns (n: nat)
    requires g.Ready() && WellFormed(g.Meaning()) && Combinational(kind)
    modifies g
    ensures g.Ready() && WellFormed(g.Meaning()) && g.Steady(old(g.fence), old(g.fenced), old(g.tidy))
    ensures |g.nets| == |old(g.nets)|
    ensures n == |old(g.cells)|
    ensures g.cells == old(g.cells) + [Cell(kind, Nones(numIns), Nones(numOuts), inPorts, outPorts)]
    ensures Lowers(old(g.Meaning()), g.Meaning())
  {
    ghost var a := g.Meaning();
    n := g.AllocateNode(kind, inPorts, numIns, outPorts, numOuts);
    AppendDead(a, g.Meaning(), g.cells[n]);
  }

  /** The gates of row `i`. */
  method CreateRow(g: Netlist, a: nat) returns (row: seq<nat>)
    requires g.Ready() && WellFormed(g.Meaning())
    modifies g
    ensures g.Ready() && WellFormed(g.Meaning()) && g.Steady(old(g.fence), old(g.fenced), old(g.tidy))
    ensures |g.nets| == |old(g.nets)|
    ensures Untouched(old(g.cells), g.cells) && Lowers(old(g.Meaning()), g.Meaning())
    ensures |row| == a && (forall j :: 0 <= j < a ==> row[j] == |old(g.cells)| + j) && |g.cells| == |old(g.cells)| + a
    ensures forall j {:trigger row[j]} :: 0 <= j < a ==> CellIs(g.cells, row[j], AndCell(None, None, None))
  {
    ghost var start := g.Meaning();
    row := [];
    LowersReflexive(start);
    for j := 0 to a
      invariant g.Ready() && WellFormed(g.Meaning()) && g.Steady(old(g.fence), old(g.fenced), old(g.tidy))
      invariant |g.nets| == |old(g.nets)|
      invariant Untouched(start.cells, g.cells) && Lowers(start, g.Meaning())
      invariant |row| == j && (forall l :: 0 <= l < j ==> row[l] == |start.cells| + l) && |g.cells| == |start.cells| + j
      invariant forall l {:trigger row[l]} :: 0 <= l < j ==> CellIs(g.cells, row[l], AndCell(None, None, None))
    {
      ghost var mid := g.Meaning();
      assert Nones(1) == [None] && Nones(2) == [None, None];
      var n := DeadNode(g, LogicalAnd, [Bit2], 2, [1], 1);
      LowersTransitive(start, mid, g.Meaning());
      row := row + [n];
    }
  }

  lemma {:induction false} RowStep(p: Array, p': Array, c0: nat, top: nat, top': nat, row: seq<nat>, adder: nat,
                                   with: bool)
    requires IdsApart(p, c0, top) && c0 <= top <= top'
    requires p' == Array(p.pps + [row], if with then p.adders + [adder] else p.adders)
    requires top <= adder && (with ==> adder < top')
    requires (forall j {:trigger row[j]} :: 0 <= j < |row| ==>
      row[j] == (if with then adder + 1 else top) + j && row[j] < top')
    ensures IdsApart(p', c0, top')
  {
    forall i: int, j: int {:trigger p'.pps[i][j]} | HasPp(p', i, j)
      ensures p'.pps[i][j] == if i < |p.pps| then p.pps[i][j] else row[j]
      ensures i < |p.pps| ==> HasPp(p, i, j) && p.pps[i][j] < top
      ensures i >= |p.pps| ==> p'.pps[i][j] >= top && (with ==> p'.pps[i][j] > adder)
    {
      if i >= |p.pps| { assert p'.pps[i] == row; }
    }
    forall i {:trigger p'.adders[i]} | 0 <= i < |p'.adders|
      ensures p'.adders[i] == if i < |p.adders| then p.adders[i] else adder {}
  }

  lemma {:induction false} CreatedStep(cells: seq<Cell>, cells': seq<Cell>, p: Array, p': Array, a: nat, row: seq<nat>,
                                       adder: nat, with: bool)
    requires Created(cells, p, a) && Untouched(cells, cells')
    requires p' == Array(p.pps + [row], if with then p.adders + [adder] else p.adders)
    requires with ==> CellIs(cells', adder, AdderCell(a + 1, Nones(2 * a + 2), Nones(a + 1)))
    requires forall j {:trigger row[j]} :: 0 <= j < |row| ==> CellIs(cells', row[j], AndCell(None, None, None))
    ensures Created(cells', p', a)
  {
    forall i: int, j: int {:trigger p'.pps[i][j]} | HasPp(p', i, j)
      ensures CellIs(cells', p'.pps[i][j], AndCell(None, None, None)) {
      if i < |p.pps| {
        assert p'.pps[i][j] == p.pps[i][j];
        assert CellIs(cells, p.pps[i][j], AndCell(None, None, None));
      } else {
        assert p'.pps[i] == row;
      }
    }
    forall i {:trigger p'.adders[i]} | 0 <= i < |p'.adders|
      ensures CellIs(cells', p'.adders[i], AdderCell(a + 1, Nones(2 * a + 2), Nones(a + 1))) {
      if i < |p.adders| {
        assert p'.adders[i] == p.adders[i];
        assert CellIs(cells, p.adders[i], AdderCell(a + 1, Nones(2 * a + 2), Nones(a + 1)));
      }
    }
  }

  /** One round of the creation loop: an adder, except in the last round, and a row of gates. */
  method CreateStage(g: Netlist, a: nat, with: bool) returns (row: seq<nat>, adder: nat)
    requires g.Ready() && WellFormed(g.Meaning())
    modifies g
    ensures g.Ready() && WellFormed(g.Meaning()) && g.Steady(old(g.fence), old(g.fenced), old(g.tidy))
    ensures |g.nets| == |old(g.nets)|
    ensures Untouched(old(g.cells), g.cells) && Lowers(old(g.Meaning()), g.Meaning()) && adder == |old(g.cells)|
    ensures with ==> CellIs(g.cells, adder, AdderCell(a + 1, Nones(2 * a + 2), Nones(a + 1))) && adder < |g.cells|
    ensures |row| == a
    ensures forall j {:trigger row[j]} :: 0 <= j < a ==>
      row[j] == (if with then adder + 1 else adder) + j && row[j] < |g.cells|
    ensures forall j {:trigger row[j]} :: 0 <= j < a ==> CellIs(g.cells, row[j], AndCell(None, None, None))
  {
    ghost var start := g.Meaning();
    adder := |g.nodes|;
    LowersReflexive(start);
    if with {
      adder := DeadNode(g, Add, [Port(Plain, a + 1), Port(Plain, a + 1)], 2 * a + 2, [a + 1], a + 1);
    }
    ghost var mid := g.Meaning();
    row := CreateRow(g, a);
    LowersTransitive(start, mid, g.Meaning());
  }

  /** The creation loop. */
  method CreateArray(g: Netlist, a: nat, b: nat) returns (p: Array)
    requires g.Ready() && WellFormed(g.Meaning()) && b >= 1
    modifies g
    ensures g.Ready() && WellFormed(g.Meaning()) && g.Steady(old(g.fence), old(g.fenced), old(g.tidy))
    ensures |g.nets| == |old(g.nets)|
    ensures Untouched(old(g.cells), g.cells) && Lowers(old(g.Meaning()), g.Meaning())
    ensures Sized(p, a, b, b) && IdsApart(p, |old(g.cells)|, |g.cells|) && Created(g.cells, p, a)
  {
    hide NodeOk, SameSequential, Netlist.Valid, Consistent, Lowers;
    ghost var start := g.Meaning();
    p := Array([], []);
    LowersReflexive(start);
    for i := 0 to b
      invariant g.Ready() && WellFormed(g.Meaning()) && g.Steady(old(g.fence), old(g.fenced), old(g.tidy))
      invariant |g.nets| == |old(g.nets)|
      invariant Untouched(start.cells, g.cells) && Lowers(start, g.Meaning())
      invariant Sized(p, a, b, i) && IdsApart(p, |start.cells|, |g.cells|) && Created(g.cells, p, a)
    {
      ghost var mid := g.Meaning();
      var row, adder := CreateStage(g, a, i < b - 1);
      var p' := Array(p.pps + [row], if i < b - 1 then p.adders + [adder] else p.adders);
      LowersTransitive(start, mid, g.Meaning());
      RowStep(p, p', |start.cells|, |mid.cells|, |g.cells|, row, adder, i < b - 1);
      CreatedStep(mid.cells, g.cells, p, p', a, row, adder, i < b - 1);
      p := p';
    }
  }

  // ----- the gates get their operands -----

  /** Gates before (i, j) have their operands, the others are as created. */
  ghost predicate GatesWired(cells: seq<Cell>, c: Cell, p: Array, i: int, j: int)
    requires MultNode(c)
  {
    forall k, l {:trigger p.pps[k][l]} :: HasPp(p, k, l) && k < WidthB(c) && l < WidthA(c) ==>
      CellIs(cells, p.pps[k][l], if k < i || (k == i && l < j) then AndCell(c.ins[WidthA(c) + k], c.ins[l], None)
        else AndCell(None, None, None))
  }

  /** Operand pin `s` has not been moved before gate (i, j). */
  predicate Kept(a: nat, i: nat, j: nat, s: nat) {
    if s < a then i == 0 && s >= j else s - a > i || (s - a == i && j == 0)
  }

  /** The operand pins still on the node. */
  ghost predicate OperandsLeft(now: Cell, c: Cell, i: nat, j: nat)
    requires MultNode(c)
  {
    && now == c.(ins := now.ins) && |now.ins| == |c.ins|
    && (forall s: nat {:trigger now.ins[s]} :: s < |c.ins| ==> now.ins[s] == None || now.ins[s] == c.ins[s])
    && forall s: nat {:trigger now.ins[s]} :: s < |c.ins| && Kept(WidthA(c), i, j, s) ==> now.ins[s] == c.ins[s]
  }

  ghost predicate OnlyTwo(before: seq<Cell>, after: seq<Cell>, n: nat, x: nat) {
    |before| == |after| && forall k {:trigger after[k]} :: 0 <= k < |before| && k != n && k != x ==>
      after[k] == before[k]
  }

  /** The gate is a dead cell of the virtual netlist, so it may be rewired. */
  lemma {:induction false} VirtualRewire(a: NL, b: NL, n: nat, x: nat, c: Cell)
    requires n < |a.cells| && x < |a.cells| && n != x && OnlyTwo(a.cells, b.cells, n, x) && WellFormed(Virtual(a, n, c))
    requires Undriving(a.cells[x]) && Undriving(b.cells[x]) && SlotsBelow(b.cells[x].ins, a.nets)
    requires b.nets == a.nets && b.zero == a.zero && b.one == a.one && b.pad == a.pad
    ensures Lowers(Virtual(a, n, c), Virtual(b, n, c)) && WellFormed(Virtual(b, n, c))
  {
    assert Virtual(b, n, c).cells == Virtual(a, n, c).cells[x := b.cells[x]];
    RewireDead(Virtual(a, n, c), Virtual(b, n, c), x, b.cells[x]);
  }

  /** First operand of gate (i, j): the pin itself in column 0, a copy elsewhere. */
  method WireB(g: Netlist, n: nat, p: Array, a: nat, i: nat, j: nat, ghost c: Cell)
    requires g.Ready() && n < |g.cells| && MultNode(c) && a == WidthA(c) && HasPp(p, i, j) && i < WidthB(c)
    requires HasPp(p, i, 0)
    requires g.fence.floor <= p.pps[i][j]
    requires n != p.pps[i][j] && CellIs(g.cells, p.pps[i][j], AndCell(None, None, None)) && |g.cells[n].ins| == |c.ins|
    requires j == 0 ==> g.cells[n].ins[a + i] == c.ins[a + i]
    requires j > 0 ==> p.pps[i][0] != p.pps[i][j] && HasIn(g.cells, p.pps[i][0], 0)
    requires j > 0 ==> g.cells[p.pps[i][0]].ins[0] == c.ins[a + i]
    modifies g
    ensures g.Ready() && |g.nets| == |old(g.nets)| && g.Steady(old(g.fence), old(g.fenced), old(g.tidy))
    ensures OnlyTwo(old(g.cells), g.cells, n, p.pps[i][j])
    ensures g.cells[p.pps[i][j]] == AndCell(c.ins[a + i], None, None)
    ensures g.cells[n] == old(g.cells[n]).(ins := if j == 0 then old(g.cells[n].ins)[a + i := None]
      else old(g.cells[n].ins))
  {
    assert c.ins[a + i].Some?;
    if j == 0 {
      g.RemapInput(n, a + i, p.pps[i][j], 0);
    } else {
      g.CopyInput(p.pps[i][0], 0, p.pps[i][j], 0);
    }
    assert g.cells[p.pps[i][j]].ins == [c.ins[a + i], None];
  }

  /** Second operand of gate (i, j): the pin itself in row 0, a copy elsewhere. */
  method WireA(g: Netlist, n: nat, p: Array, a: nat, i: nat, j: nat, ghost c: Cell)
    requires g.Ready() && n < |g.cells| && MultNode(c) && a == WidthA(c) && HasPp(p, i, j) && i < WidthB(c) && j < a
    requires HasPp(p, 0, j)
    requires g.fence.floor <= p.pps[i][j]
    requires n != p.pps[i][j] && CellIs(g.cells, p.pps[i][j], AndCell(c.ins[a + i], None, None))
    requires |g.cells[n].ins| == |c.ins|
    requires i == 0 ==> g.cells[n].ins[j] == c.ins[j]
    requires i > 0 ==> p.pps[0][j] != p.pps[i][j] && HasIn(g.cells, p.pps[0][j], 1)
    requires i > 0 ==> g.cells[p.pps[0][j]].ins[1] == c.ins[j]
    modifies g
    ensures g.Ready() && |g.nets| == |old(g.nets)| && g.Steady(old(g.fence), old(g.fenced), old(g.tidy))
    ensures OnlyTwo(old(g.cells), g.cells, n, p.pps[i][j])
    ensures g.cells[p.pps[i][j]] == AndCell(c.ins[a + i], c.ins[j], None)
    ensures g.cells[n] == old(g.cells[n]).(ins := if i == 0 then old(g.cells[n].ins)[j := None]
      else old(g.cells[n].ins))
  {
    assert c.ins[j].Some?;
    if i == 0 {
      g.RemapInput(n, j, p.pps[i][j], 1);
    } else {
      g.CopyInput(p.pps[0][j], 1, p.pps[i][j], 1);
    }
    assert g.cells[p.pps[i][j]].ins == [c.ins[a + i], c.ins[j]];
  }

  lemma {:induction false} GateStep(before: seq<Cell>, after: seq<Cell>, n: nat, c: Cell, p: Array, c0: nat, i: nat,
                                    j: nat)
    requires MultNode(c) && IdsApart(p, c0, |before|) && n < c0 && HasPp(p, i, j) && i < WidthB(c) && j < WidthA(c)
    requires GatesWired(before, c, p, i, j) && OnlyTwo(before, after, n, p.pps[i][j])
    requires after[p.pps[i][j]] == AndCell(c.ins[WidthA(c) + i], c.ins[j], None)
    ensures GatesWired(after, c, p, i, j + 1)
  {
    forall k: int, l: int {:trigger p.pps[k][l]} | HasPp(p, k, l) && k < WidthB(c) && l < WidthA(c)
      ensures CellIs(after, p.pps[k][l], if k < i
        || (k == i && l < j + 1) then AndCell(c.ins[WidthA(c) + k], c.ins[l], None) else AndCell(None, None, None))
    {
      assert CellIs(before, p.pps[k][l], if k < i
        || (k == i && l < j) then AndCell(c.ins[WidthA(c) + k], c.ins[l], None) else AndCell(None, None, None));
      if k == i && l == j { } else { assert p.pps[k][l] != p.pps[i][j]; }
    }
  }

  /** Both operands of one gate. */
  method WireGate(g: Netlist, n: nat, p: Array, a: nat, i: nat, j: nat, ghost c: Cell, ghost c0: nat)
    requires g.Ready() && n < c0 <= |g.cells| && MultNode(c) && a == WidthA(c) && IdsApart(p, c0, |g.cells|)
    requires Sized(p, a, WidthB(c), WidthB(c))
    requires i < WidthB(c) && j < a && GatesWired(g.cells, c, p, i, j) && OperandsLeft(g.cells[n], c, i, j)
    requires WellFormed(Virtual(g.Meaning(), n, c)) && InRange(c, |g.nets|)
    requires g.fence.floor <= c0
    modifies g
    ensures g.Ready() && |g.nets| == |old(g.nets)| && g.Steady(old(g.fence), old(g.fenced), old(g.tidy))
    ensures OnlyTwo(old(g.cells), g.cells, n, p.pps[i][j])
    ensures GatesWired(g.cells, c, p, i, j + 1) && OperandsLeft(g.cells[n], c, i, j + 1)
    ensures Lowers(Virtual(old(g.Meaning()), n, c), Virtual(g.Meaning(), n, c))
    ensures WellFormed(Virtual(g.Meaning(), n, c))
  {
    hide Netlist.Valid, Consistent, Virtual, Lowers, WellFormed, SameSequential, Netlist.Bound, Netlist.Ready;
    ghost var start := g.Meaning();
    ghost var x := p.pps[i][j];
    assert HasPp(p, i, j) && HasPp(p, i, 0) && HasPp(p, 0, j);
    assert CellIs(g.cells, x, AndCell(None, None, None));
    assert j > 0 ==> p.pps[i][0] != x && CellIs(g.cells, p.pps[i][0], AndCell(c.ins[a + i], c.ins[0], None));
    assert i > 0 ==> p.pps[0][j] != x && CellIs(g.cells, p.pps[0][j], AndCell(c.ins[a], c.ins[j], None));
    WireB(g, n, p, a, i, j, c);
    WireA(g, n, p, a, i, j, c);
    GateStep(start.cells, g.cells, n, c, p, c0, i, j);
    VirtualRewire(start, g.Meaning(), n, x, c);
  }

  /** The loops that hook the operands up to the gates. */
  method WireGates(g: Netlist, n: nat, p: Array, a: nat, b: nat, ghost c: Cell, ghost c0: nat)
    requires g.Ready() && n < c0 <= |g.cells| && MultNode(c) && a == WidthA(c) && b == WidthB(c)
    requires IdsApart(p, c0, |g.cells|) && Sized(p, a, b, b)
    requires g.cells[n] == c && Created(g.cells, p, a) && WellFormed(Virtual(g.Meaning(), n, c)) && InRange(c, |g.nets|)
    requires g.fence.floor <= c0
    modifies g
    ensures g.Ready() && |g.nets| == |old(g.nets)| && g.Steady(old(g.fence), old(g.fenced), old(g.tidy))
    ensures |g.cells| == |old(g.cells)|
    ensures GatesWired(g.cells, c, p, b, 0) && OffGates(old(g.cells), g.cells, n, p)
    ensures g.cells[n] == c.(ins := g.cells[n].ins)
    ensures SlotsBelow(g.cells[n].ins, |g.nets|)
    ensures Lowers(Virtual(old(g.Meaning()), n, c), Virtual(g.Meaning(), n, c))
    ensures WellFormed(Virtual(g.Meaning(), n, c))
  {
    hide AndCell, Lowers, Netlist.Valid, Virtual, Netlist.Ready, Nones, CellIs;
    ghost var start := g.Meaning();
    LowersReflexive(Virtual(start, n, c));
    for i := 0 to b
      invariant g.Ready() && |g.nets| == start.nets && g.Steady(old(g.fence), old(g.fenced), old(g.tidy))
      invariant |g.cells| == |start.cells|
      invariant GatesWired(g.cells, c, p, i, 0) && OperandsLeft(g.cells[n], c, i, 0)
      invariant OffGates(start.cells, g.cells, n, p)
      invariant Lowers(Virtual(start, n, c), Virtual(g.Meaning(), n, c)) && WellFormed(Virtual(g.Meaning(), n, c))
    {
      for j := 0 to a
        invariant g.Ready() && |g.nets| == start.nets && g.Steady(old(g.fence), old(g.fenced), old(g.tidy))
        invariant |g.cells| == |start.cells|
        invariant GatesWired(g.cells, c, p, i, j) && OperandsLeft(g.cells[n], c, i, j)
        invariant OffGates(start.cells, g.cells, n, p)
        invariant Lowers(Virtual(start, n, c), Virtual(g.Meaning(), n, c)) && WellFormed(Virtual(g.Meaning(), n, c))
      {
        ghost var mid := g.Meaning();
        WireGate(g, n, p, a, i, j, c, c0);
        LowersTransitive(Virtual(start, n, c), Virtual(mid, n, c), Virtual(g.Meaning(), n, c));
        assert HasPp(p, i, j);
        OffGatesStep(start.cells, mid.cells, g.cells, n, p, i, j);
      }
    }
  }

  /** Cells that are neither the node nor a gate. */
  ghost predicate OffGates(before: seq<Cell>, after: seq<Cell>, n: nat, p: Array) {
    |before| == |after| && forall k {:trigger after[k]} :: 0 <= k < |before| && k != n && !IsGate(p, k) ==>
      after[k] == before[k]
  }

  ghost predicate IsGate(p: Array, x: nat) {
    exists i, j {:trigger p.pps[i][j]} :: HasPp(p, i, j) && p.pps[i][j] == x
  }

  lemma {:induction false} OffGatesStep(a: seq<Cell>, b: seq<Cell>, c: seq<Cell>, n: nat, p: Array, i: nat, j: nat)
    requires OffGates(a, b, n, p) && HasPp(p, i, j) && OnlyTwo(b, c, n, p.pps[i][j])
    ensures OffGates(a, c, n, p)
  {
  }
}
