/** create_mux_statements on the netlist: the merge loop grows one mux port and output for every row. */
module MuxStatements {
  import opened Wrappers
  import opened Bits
  import opened Semantics
  import opened Runs
  import opened Netlists
  import opened RippleCells
  import opened Growth
  import opened Gates
  import opened Merging

  /** What stands in for a signal a branch does not assign: the register itself, or zero. */
  datatype Scope = Scope(regs: map<nat, nat>, sequential: bool, zero: nat)
  {
    function Implied(m: nat): nat {
      if sequential && m in regs then regs[m] else zero
    }
  }

  /** What the lists still hold behind their cursors. */
  function Remaining(lists: seq<seq<Sig>>, cursors: seq<nat>): (r: seq<seq<Sig>>)
    requires |lists| == |cursors|
    ensures |r| == |lists|
    ensures forall j {:trigger r[j]} :: 0 <= j < |lists| ==> r[j] == FromCursor(lists[j], cursors[j])
  {
    seq(|lists|, (j: nat) requires j < |lists| => FromCursor(lists[j], cursors[j]))
  }

  function FromCursor(l: seq<Sig>, i: nat): seq<Sig> {
    if i <= |l| then l[i..] else []
  }

  /** No pin is listed twice. */
  ghost predicate PinsApart(lists: seq<seq<Sig>>) {
    forall j, i, j', i' {:trigger lists[j][i], lists[j'][i']} ::
      0 <= j < |lists| && 0 <= i < |lists[j]| && 0 <= j' < |lists| && 0 <= i' < |lists[j']| && lists[j][i].pin == lists[j'][i'].pin ==> j == j' && i == i'
  }

  /** The pins behind the cursors sit nowhere, on the nets `net` gives. */
  ghost predicate Owned(g: Netlist, lists: seq<seq<Sig>>, cursors: seq<nat>, net: nat -> nat)
    reads g
  {
    && |lists| == |cursors| && PinsApart(lists)
    && (forall j, i {:trigger lists[j][i]} :: 0 <= j < |lists| && 0 <= i < |lists[j]| ==> lists[j][i].pin < |g.pins|)
    && forall j, i {:trigger lists[j][i]} :: 0 <= j < |lists| && cursors[j] <= i < |lists[j]| ==>
      Free(g, lists[j][i].pin, Some(net(lists[j][i].pin)))
  }

  ghost predicate Listed(lists: seq<seq<Sig>>, p: nat) {
    exists j, i {:trigger lists[j][i]} :: 0 <= j < |lists| && 0 <= i < |lists[j]| && lists[j][i].pin == p
  }

  /** Pins that sat nowhere are untouched unless they are listed. */
  ghost predicate KeptOutside(before: seq<Pin>, after: seq<Pin>, lists: seq<seq<Sig>>) {
    && |before| <= |after|
    && forall p {:trigger before[p]} :: 0 <= p < |before| && before[p].node == None && !Listed(lists, p) ==>
      after[p] == before[p]
  }

  function RowNet(pick: Option<nat>, net: nat -> nat, implied: nat): nat {
    if pick.Some? then net(pick.value) else implied
  }

  /** The nets of one mux port. */
  function RowNets(row: Row, net: nat -> nat, implied: nat): (r: seq<Option<nat>>)
    ensures |r| == |row.picks|
    ensures forall j {:trigger r[j]} :: 0 <= j < |r| ==> r[j] == Some(RowNet(row.picks[j], net, implied))
  {
    seq(|row.picks|, (j: nat) requires j < |row.picks| => Some(RowNet(row.picks[j], net, implied)))
  }

  /** One data pin: the statement's, if its name is due in this list, or the implied one. */
  method FillSlot(g: Netlist, n: nat, slot: nat, list: seq<Sig>, cursor: nat, m: nat, scope: Scope,
                  ghost net: nat -> nat) returns (took: bool)
    requires g.Ready() && HasIn(g.cells, n, slot) && g.cells[n].ins[slot] == None
    requires cursor < |list| ==> Free(g, list[cursor].pin, Some(net(list[cursor].pin)))
    requires m in scope.regs && scope.regs[m] < |g.nets| && scope.zero == g.zeroNet
    modifies g
    ensures g.KeepsDrivers(old(g.nets))
    ensures g.Ready() && |g.nets| == |old(g.nets)| && (old(g.tidy) ==> g.tidy)
    ensures took == Heads(FromCursor(list, cursor), m)
    ensures g.cells == SetIn(old(g.cells), n, slot,
      Some(RowNet(Pick(FromCursor(list, cursor), m), net, scope.Implied(m))))
    ensures KeptBut(old(g.pins), g.pins, if took then [list[cursor].pin] else [])
  {
    g.EmptySlots(n);
    took := cursor < |list| && list[cursor].name == m;
    if took {
      g.AddInputPinToNode(n, list[cursor].pin, slot);
    } else if scope.sequential {
      g.AttachNet(scope.regs[m], n, slot);
    } else {
      g.AttachZero(n, slot);
    }
  }

  function Advanced(lists: seq<seq<Sig>>, cursors: seq<nat>, m: nat, upTo: nat): (r: seq<nat>)
    requires |lists| == |cursors|
    ensures |r| == |cursors|
    ensures forall j {:trigger r[j]} :: 0 <= j < |r| ==>
      r[j] == if j < upTo && Heads(FromCursor(lists[j], cursors[j]), m) then cursors[j] + 1 else cursors[j]
  {
    seq(|cursors|, (j: nat) requires j < |cursors| => if j < upTo
      && Heads(FromCursor(lists[j], cursors[j]), m) then cursors[j] + 1 else cursors[j])
  }

  /** Moving the cursors of the matching lists leaves their rests. */
  lemma {:induction false} AdvancedRemaining(lists: seq<seq<Sig>>, cursors: seq<nat>, m: nat)
    requires |lists| == |cursors|
    ensures Remaining(lists, Advanced(lists, cursors, m, |lists|)) == Rests(Remaining(lists, cursors), m)
  {
    forall j | 0 <= j < |lists|
      ensures Remaining(lists, Advanced(lists, cursors, m, |lists|))[j] == Rests(Remaining(lists, cursors), m)[j]
    {
      if Heads(FromCursor(lists[j], cursors[j]), m) { assert lists[j][cursors[j]..][1..]
        == lists[j][cursors[j] + 1..]; }
    }
  }

  lemma {:induction false} SkipFrom(lists: seq<seq<Sig>>, m: nat, j: nat)
    requires j < |lists|
    ensures Skip(lists[j..], m) == (if Heads(lists[j], m) then 1 else 0) + Skip(lists[j + 1..], m)
  {
    assert lists[j..][1..] == lists[j + 1..];
  }

  /** What is behind the cursors survives the loss of one listed pin that is not. */
  lemma {:induction false} OwnedStep(before: seq<Pin>, after: seq<Pin>, lists: seq<seq<Sig>>, cursors: seq<nat>,
                                     cursors': seq<nat>, net: nat -> nat,
                                     k: nat, took: bool)
    requires |lists| == |cursors| == |cursors'| && PinsApart(lists) && k < |lists|
    requires cursors' == cursors[k := if took then cursors[k] + 1 else cursors[k]] && (took ==> cursors[k] < |lists[k]|)
    requires KeptBut(before, after, if took then [lists[k][cursors[k]].pin] else [])
    requires forall j, i {:trigger lists[j][i]} :: 0 <= j < |lists| && cursors[j] <= i < |lists[j]| ==>
      lists[j][i].pin < |before| && before[lists[j][i].pin].node == None
    ensures forall j, i {:trigger lists[j][i]} :: 0 <= j < |lists| && cursors'[j] <= i < |lists[j]| ==>
      after[lists[j][i].pin] == before[lists[j][i].pin]
    ensures KeptOutside(before, after, lists)
  {
    forall j, i {:trigger lists[j][i]} | 0 <= j < |lists| && cursors'[j] <= i < |lists[j]|
      ensures after[lists[j][i].pin] == before[lists[j][i].pin]
    {
      assert took ==> lists[j][i].pin != lists[k][cursors[k]].pin;
    }
  }

  lemma {:induction false} KeptOutsideThen(a: seq<Pin>, b: seq<Pin>, c: seq<Pin>, lists: seq<seq<Sig>>)
    requires KeptOutside(a, b, lists) && KeptOutside(b, c, lists)
    ensures KeptOutside(a, c, lists)
  {
    forall p {:trigger a[p]} | 0 <= p < |a| && a[p].node == None && !Listed(lists, p) ensures c[p] == a[p] {
      assert b[p] == a[p];
    }
  }

  /** One list's turn: its data pin, and its cursor if it had one to give. */
  method FillStep(g: Netlist, n: nat, base: nat, lists: seq<seq<Sig>>, cursors: seq<nat>, j: nat, m: nat, scope: Scope,
                  ghost net: nat -> nat)
    returns (cursors': seq<nat>, took: bool)
    requires g.Ready() && HasIn(g.cells, n, base + j) && g.cells[n].ins[base + j] == None
    requires Owned(g, lists, cursors, net) && j < |lists|
    requires m in scope.regs && scope.regs[m] < |g.nets| && scope.zero == g.zeroNet
    modifies g
    ensures g.KeepsDrivers(old(g.nets))
    ensures g.Ready() && |g.nets| == |old(g.nets)| && (old(g.tidy) ==> g.tidy)
    ensures took == Heads(FromCursor(lists[j], cursors[j]), m)
    ensures cursors' == cursors[j := if took then cursors[j] + 1 else cursors[j]]
    ensures g.cells == SetIn(old(g.cells), n, base + j,
      Some(RowNet(Pick(FromCursor(lists[j], cursors[j]), m), net, scope.Implied(m))))
    ensures Owned(g, lists, cursors', net) && KeptOutside(old(g.pins), g.pins, lists)
  {
    ghost var pins0 := g.pins;
    took := FillSlot(g, n, base + j, lists[j], cursors[j], m, scope, net);
    cursors' := cursors[j := if took then cursors[j] + 1 else cursors[j]];
    OwnedStep(pins0, g.pins, lists, cursors, cursors', net, j, took);
  }

  lemma {:induction false} RowStep(cells: seq<Cell>, c: Cell, n: nat, base: nat, row: seq<Option<nat>>, j: nat,
                                   cells0: seq<Cell>)
    requires n < |cells0| && base + |row| == |c.ins| && j < |row|
    requires cells == cells0[n := c.(ins := Placed(c.ins, base, row[..j]))]
    ensures SetIn(cells, n, base + j, row[j]) == cells0[n := c.(ins := Placed(c.ins, base, row[..j + 1]))]
  {
    assert Placed(c.ins, base, row[..j])[base + j := row[j]] == Placed(c.ins, base, row[..j + 1]);
  }

  lemma {:induction false} NoneAdvanced(lists: seq<seq<Sig>>, cursors: seq<nat>, m: nat)
    requires |lists| == |cursors|
    ensures Advanced(lists, cursors, m, 0) == cursors && Remaining(lists, cursors)[0..] == Remaining(lists, cursors)
  {
  }

  /** List `j` has its turn. */
  lemma {:induction false} AdvancedStep(lists: seq<seq<Sig>>, cursors: seq<nat>, m: nat, j: nat, now: seq<nat>,
    took: bool)
    requires |lists| == |cursors| && j < |lists| && now == Advanced(lists, cursors, m, j)
    requires took == Heads(FromCursor(lists[j], now[j]), m)
    ensures now[j] == cursors[j]
    ensures now[j := if took then now[j] + 1 else now[j]] == Advanced(lists, cursors, m, j + 1)
  {
  }

  /** The net that list `j` puts into the row. */
  lemma {:induction false} RowNetAt(lists: seq<seq<Sig>>, cursors: seq<nat>, m: nat, net: nat -> nat, implied: nat,
    j: nat)
    requires |lists| == |cursors| && j < |lists|
    ensures |RowNets(Row(m, Picks(Remaining(lists, cursors), m)), net, implied)| == |lists|
    ensures RowNets(Row(m, Picks(Remaining(lists, cursors), m)), net, implied)[j]
         == Some(RowNet(Pick(FromCursor(lists[j], cursors[j]), m), net, implied))
  {
  }

  lemma {:induction false} SkipStep(lists: seq<seq<Sig>>, cursors: seq<nat>, m: nat, j: nat, skip: nat, took: bool)
    requires |lists| == |cursors| && j < |lists| && took == Heads(FromCursor(lists[j], cursors[j]), m)
    requires skip + Skip(Remaining(lists, cursors)[j..], m) == Skip(Remaining(lists, cursors), m)
    ensures skip + (if took then 1 else 0) + Skip(Remaining(lists, cursors)[j + 1..], m)
         == Skip(Remaining(lists, cursors), m)
  {
    SkipFrom(Remaining(lists, cursors), m, j);
  }

  lemma {:induction false} RowFull(c: Cell, base: nat, row: seq<Option<nat>>, n: nat)
    requires base + |row| == |c.ins| && n == |row| && forall i :: base <= i < |c.ins| ==> c.ins[i] == None
    ensures Placed(c.ins, base, row[..n]) == c.ins[..base] + row && Placed(c.ins, base, row[..0]) == c.ins
  {
  }

  lemma {:induction false} KeptOutsideSame(pins: seq<Pin>, lists: seq<seq<Sig>>)
    ensures KeptOutside(pins, pins, lists)
  {
  }

  lemma {:induction false} SlotOpen(c: Cell, base: nat, row: seq<Option<nat>>, j: nat)
    requires base + |row| == |c.ins| && j < |row| && forall i :: base <= i < |c.ins| ==> c.ins[i] == None
    ensures |Placed(c.ins, base, row[..j])| == |c.ins| && Placed(c.ins, base, row[..j])[base + j] == None
  {
  }

  lemma {:induction false} NoneSkipped(rem: seq<seq<Sig>>, m: nat)
    ensures Skip(rem[|rem|..], m) == 0
  {
  }

  /** The inner loop: one mux port, list by list. */
  method FillRow(g: Netlist, n: nat, base: nat, lists: seq<seq<Sig>>, cursors: seq<nat>, m: nat, scope: Scope,
                 ghost net: nat -> nat)
    returns (cursors': seq<nat>, skip: nat)
    requires g.Ready() && n < |g.cells| && base + |lists| == |g.cells[n].ins|
    requires |lists| == |cursors| && Owned(g, lists, cursors, net)
    requires forall i :: base <= i < |g.cells[n].ins| ==> g.cells[n].ins[i] == None
    requires m in scope.regs && scope.regs[m] < |g.nets| && scope.zero == g.zeroNet
    modifies g
    ensures g.KeepsDrivers(old(g.nets))
    ensures g.Ready() && |g.nets| == |old(g.nets)| && (old(g.tidy) ==> g.tidy)
    ensures cursors' == Advanced(lists, cursors, m, |lists|) && skip == Skip(Remaining(lists, cursors), m)
    ensures Owned(g, lists, cursors', net) && KeptOutside(old(g.pins), g.pins, lists)
    ensures g.cells == old(g.cells)[n := old(g.cells[n]).(ins :=
      old(g.cells[n].ins)[..base] + RowNets(Row(m, Picks(Remaining(lists, cursors), m)), net, scope.Implied(m)))]
  {
    hide Netlist.Valid, Owned, KeptOutside, Advanced, Skip, Picks, Placed, Heads, Pick, Remaining, RowNets;
    ghost var cells0, c, rem := g.cells, g.cells[n], Remaining(lists, cursors);
    ghost var row := RowNets(Row(m, Picks(rem, m)), net, scope.Implied(m));
    cursors', skip := cursors, 0;
    NoneAdvanced(lists, cursors, m);
    RowFull(c, base, row, |lists|);
    KeptOutsideSame(g.pins, lists);
    for j := 0 to |lists|
      invariant g.KeepsDrivers(old(g.nets))
      invariant g.Ready() && |g.nets| == |old(g.nets)| && (old(g.tidy) ==> g.tidy)
      invariant cursors' == Advanced(lists, cursors, m, j) && skip + Skip(rem[j..], m) == Skip(rem, m)
      invariant Owned(g, lists, cursors', net) && KeptOutside(old(g.pins), g.pins, lists)
      invariant g.cells == cells0[n := c.(ins := Placed(c.ins, base, row[..j]))]
    {
      ghost var pins0, cells, now := g.pins, g.cells, cursors';
      SlotOpen(c, base, row, j);
      RowNetAt(lists, cursors, m, net, scope.Implied(m), j);
      var took;
      cursors', took := FillStep(g, n, base, lists, cursors', j, m, scope, net);
      AdvancedStep(lists, cursors, m, j, now, took);
      SkipStep(lists, cursors, m, j, skip, took);
      skip := if took then skip + 1 else skip;
      RowStep(cells, c, n, base, row, j, cells0);
      KeptOutsideThen(old(g.pins), pins0, g.pins, lists);
    }
    NoneSkipped(rem, m);
  }

  // ----- the outer loop -----

  /** Every cursor at the front of its list. */
  function Zeros(n: nat): (r: seq<nat>)
    ensures |r| == n && forall j :: 0 <= j < n ==> r[j] == 0
  {
    seq(n, _ => 0)
  }

  /** The mux with one more data port, on nets `row`, and one more output, on net `e`. */
  function WithRow(c: Cell, row: seq<Option<nat>>, e: nat): Cell {
    c.(ins := c.ins + row, inPorts := c.inPorts + [Port(Plain, |row|)], outs := c.outs + [Some(e)])
  }

  function WithRows(c: Cell, rows: seq<Row>, net: nat -> nat, scope: Scope, e: nat): (r: Cell)
    ensures r.kind == c.kind && r.outPorts == c.outPorts && |r.outs| == |c.outs| + |rows|
    ensures forall i {:trigger r.outs[i]} :: 0 <= i < |r.outs| ==>
      r.outs[i] == if i < |c.outs| then c.outs[i] else Some(e + (i - |c.outs|))
  {
    if rows == [] then c
    else
      var k := |rows| - 1;
      WithRow(WithRows(c, rows[..k], net, scope, e), RowNets(rows[k], net, scope.Implied(rows[k].name)), e + k)
  }

  /** A new data port of `width` pins and a new output with its net; `p` is the pin of that net. */
  method OpenRow(g: Netlist, n: nat, width: nat) returns (p: nat, base: nat)
    requires g.Ready() && n < |g.cells|
    modifies g
    ensures g.KeepsDrivers(old(g.nets))
    ensures g.Ready() && |g.nets| == |old(g.nets)| + 1 && (old(g.tidy) ==> g.tidy) && g.KeepsFree(old(g.pins))
    ensures p >= |old(g.pins)| && Free(g, p, Some(|old(g.nets)|)) && base == |old(g.cells[n].ins)|
    ensures g.cells == old(g.cells)[n := WithRow(old(g.cells[n]), Nones(width), |old(g.nets)|)]
  {
    ghost var c := g.cells[n];
    g.EmptySlots(n);
    base := |g.nodes[n].inPins|;
    var at := |g.nodes[n].outPins|;
    g.AddInputPort(n, width);
    g.AddOutputSlot(n);
    p := g.NewOutput(n, at);
    assert (c.outs + [None])[|c.outs| := Some(|old(g.nets)|)] == c.outs + [Some(|old(g.nets)|)];
  }

  /** One round: a port, an output with its net, and the data pins. */
  method OneRow(g: Netlist, n: nat, lists: seq<seq<Sig>>, cursors: seq<nat>, m: nat, scope: Scope,
                ghost net: nat -> nat)
    returns (p: nat, cursors': seq<nat>, skip: nat)
    requires g.Ready() && n < |g.cells| && Owned(g, lists, cursors, net)
    requires m in scope.regs && scope.regs[m] < |g.nets| && scope.zero == g.zeroNet
    modifies g
    ensures g.KeepsDrivers(old(g.nets))
    ensures g.Ready() && |g.nets| == |old(g.nets)| + 1 && (old(g.tidy) ==> g.tidy)
    ensures cursors' == Advanced(lists, cursors, m, |lists|) && skip == Skip(Remaining(lists, cursors), m)
    ensures Owned(g, lists, cursors', net) && KeptOutside(old(g.pins), g.pins, lists)
    ensures p >= |old(g.pins)| && Free(g, p, Some(|old(g.nets)|))
    ensures g.cells == old(g.cells)[n := WithRow(old(g.cells[n]),
      RowNets(Row(m, Picks(Remaining(lists, cursors), m)), net, scope.Implied(m)), |old(g.nets)|)]
  {
    ghost var c, pins0 := g.cells[n], g.pins;
    var base;
    p, base := OpenRow(g, n, |lists|);
    ghost var pins1 := g.pins;
    cursors', skip := FillRow(g, n, base, lists, cursors, m, scope, net);
    KeptOutsideThen(pins0, pins1, g.pins, lists);
    assert (c.ins + Nones(|lists|))[..|c.ins|] == c.ins;
    assert !Listed(lists, p);
  }

  /** The outputs handed on, row by row, on consecutive nets. */
  ghost predicate Handed(pins: seq<Pin>, list: seq<Sig>, rows: seq<Row>, p0: nat, e: nat) {
    && |list| == |rows|
    && (forall r {:trigger list[r]} :: 0 <= r < |list| ==>
      list[r].name == rows[r].name && p0 <= list[r].pin && FreeIn(pins, list[r].pin, Some(e + r)))
    && (forall r, r' {:trigger list[r], list[r']} :: 0 <= r < r' < |list| ==> list[r].pin != list[r'].pin)
  }

  ghost predicate ListedBelow(lists: seq<seq<Sig>>, p0: nat) {
    forall j, i {:trigger lists[j][i]} :: 0 <= j < |lists| && 0 <= i < |lists[j]| ==> lists[j][i].pin < p0
  }

  lemma {:induction false} HandedStep(lists: seq<seq<Sig>>, before: seq<Pin>, after: seq<Pin>, list: seq<Sig>,
                                      rows: seq<Row>, p0: nat, e: nat, p: nat, row: Row, x: nat)
    requires Handed(before, list, rows, p0, e) && KeptOutside(before, after, lists) && ListedBelow(lists, p0)
    requires p0 <= |before| <= p && FreeIn(after, p, Some(x)) && x == e + |rows|
    ensures Handed(after, list + [Sig(row.name, p)], rows + [row], p0, e)
  {
    forall r {:trigger list[r]} | 0 <= r < |list| ensures FreeIn(after, list[r].pin, Some(e + r)) {
      assert !Listed(lists, list[r].pin);
    }
  }

  lemma {:induction false} NothingLeft(lists: seq<seq<Sig>>)
    requires Combines([], lists)
    ensures Rows(lists) == []
  {
    LeastIs(lists);
    if Least(lists).Some? {
      var m := Least(lists).value;
      var j :| 0 <= j < |lists| && Heads(lists[j], m);
      assert CountIn(lists[j], m) > 0;
      TotalPositive(lists, m);
      assert CountIn([], m) == 0;
    }
  }

  lemma {:induction false} RowsStep(c: Cell, rows: seq<Row>, row: Row, net: nat -> nat, scope: Scope, e: nat)
    ensures WithRows(c, rows + [row], net, scope, e)
      == WithRow(WithRows(c, rows, net, scope, e), RowNets(row, net, scope.Implied(row.name)), e + |rows|)
  {
    assert (rows + [row])[..|rows|] == rows;
  }

  /** The names in the lists are registers of the scope. */
  ghost predicate Named(lists: seq<seq<Sig>>, regs: map<nat, nat>, nets: nat) {
    forall j, i {:trigger lists[j][i]} :: 0 <= j < |lists| && 0 <= i < |lists[j]| ==>
      lists[j][i].name in regs && regs[lists[j][i].name] < nets
  }

  lemma {:induction false} CombinedAtStart(lists: seq<seq<Sig>>, cursors: seq<nat>)
    requires |cursors| == |lists| && (forall j :: 0 <= j < |lists| ==> cursors[j] == 0) && AllSorted(lists)
    ensures Remaining(lists, cursors) == lists && Combines(Sort(Concat(lists)), lists)
  {
    forall j | 0 <= j < |lists| ensures Remaining(lists, cursors)[j] == lists[j] { assert lists[j][0..] == lists[j]; }
    SortSorts(Concat(lists));
    forall x {:trigger CountIn(Sort(Concat(lists)), x)} ensures CountIn(Sort(Concat(lists)), x) == TotalIn(lists, x) {
      CountSort(Concat(lists), x);
      CountAll(lists, x);
    }
  }

  /** The front name of what is left belongs to some list. */
  lemma {:induction false} FrontNamed(rest: seq<Sig>, lists: seq<seq<Sig>>, cursors: seq<nat>, regs: map<nat, nat>,
                                      nets: nat)
    requires |cursors| == |lists| && Combines(rest, Remaining(lists, cursors)) && rest != [] && Named(lists, regs, nets)
    ensures rest[0].name in regs && regs[rest[0].name] < nets
  {
    var m, rem := rest[0].name, Remaining(lists, cursors);
    FrontIsLeast(rest, rem);
    LeastIs(rem);
    var j :| 0 <= j < |rem| && Heads(rem[j], m);
    assert rem[j][0] == lists[j][cursors[j]];
  }

  /** The merge after some rounds: `combined` from `i` on is what the lists still hold, `rows` is what was emitted. */
  ghost predicate Midway(lists: seq<seq<Sig>>, cursors: seq<nat>, combined: seq<Sig>, i: nat, rows: seq<Row>) {
    && i <= |combined| && |cursors| == |lists| && Combines(combined[i..], Remaining(lists, cursors))
    && Rows(lists) == rows + Rows(Remaining(lists, cursors))
  }

  ghost function NextRow(lists: seq<seq<Sig>>, cursors: seq<nat>, m: nat): Row
    requires |cursors| == |lists|
  {
    Row(m, Picks(Remaining(lists, cursors), m))
  }

  lemma {:induction false} Behind(s: seq<Sig>, i: nat, skip: nat)
    requires i <= |s| && skip <= |s| - i
    ensures s[i..][skip..] == s[i + skip..]
  {
  }

  lemma {:induction false} Joined(a: seq<Row>, x: Row, b: seq<Row>)
    ensures a + ([x] + b) == (a + [x]) + b
  {
  }

  /** A round skips at least one entry and emits the next row. */
  lemma {:induction false} Round(lists: seq<seq<Sig>>, cursors: seq<nat>, combined: seq<Sig>, i: nat, rows: seq<Row>,
                                 m: nat, skip: nat,
                                 cursors': seq<nat>, i': nat, rows': seq<Row>)
    requires Midway(lists, cursors, combined, i, rows) && i < |combined| && m == combined[i].name
    requires skip == Skip(Remaining(lists, cursors), m)
    requires cursors' == Advanced(lists, cursors, m, |lists|) && rows' == rows + [NextRow(lists, cursors, m)]
    requires i' == i + skip
    ensures i < i' <= |combined| && Midway(lists, cursors', combined, i', rows')
  {
    var rem, rest := Remaining(lists, cursors), combined[i..];
    assert rest[0] == combined[i];
    RoundRows(rest, rem, m, skip);
    AdvancedRemaining(lists, cursors, m);
    Behind(combined, i, skip);
    Joined(rows, NextRow(lists, cursors, m), Rows(Rests(rem, m)));
  }

  lemma {:induction false} RoundRows(rest: seq<Sig>, rem: seq<seq<Sig>>, m: nat, skip: nat)
    requires rest != [] && Combines(rest, rem) && m == rest[0].name && skip == Skip(rem, m)
    ensures 1 <= skip <= |rest| && Combines(rest[skip..], Rests(rem, m))
    ensures Rows(rem) == [Row(m, Picks(rem, m))] + Rows(Rests(rem, m))
  {
    SkipAdvances(rest, rem);
    FrontIsLeast(rest, rem);
  }

  lemma {:induction false} Start(lists: seq<seq<Sig>>, cursors: seq<nat>)
    requires |cursors| == |lists| && (forall j :: 0 <= j < |lists| ==> cursors[j] == 0) && AllSorted(lists)
    ensures Midway(lists, cursors, Sort(Concat(lists)), 0, [])
  {
    CombinedAtStart(lists, cursors);
    var combined := Sort(Concat(lists));
    assert combined[0..] == combined;
    assert [] + Rows(lists) == Rows(lists);
  }

  lemma {:induction false} Finish(lists: seq<seq<Sig>>, cursors: seq<nat>, combined: seq<Sig>, rows: seq<Row>)
    requires Midway(lists, cursors, combined, |combined|, rows)
    ensures rows == Rows(lists)
  {
    assert combined[|combined|..] == [];
    NothingLeft(Remaining(lists, cursors));
    assert rows + [] == rows;
  }

  lemma {:induction false} DueNamed(lists: seq<seq<Sig>>, cursors: seq<nat>, combined: seq<Sig>, i: nat,
                                    rows: seq<Row>, regs: map<nat, nat>, nets: nat)
    requires Midway(lists, cursors, combined, i, rows) && i < |combined| && Named(lists, regs, nets)
    ensures combined[i].name in regs && regs[combined[i].name] < nets
  {
    assert combined[i..][0] == combined[i];
    FrontNamed(combined[i..], lists, cursors, regs, nets);
  }

  lemma {:induction false} GrownRow(cells0: seq<Cell>, cells: seq<Cell>, n: nat, c: Cell, rows: seq<Row>, row: Row,
                                    net: nat -> nat, scope: Scope, e: nat, x: nat)
    requires n < |cells0| && x == e + |rows| && cells == cells0[n := WithRows(c, rows, net, scope, e)]
    ensures cells[n := WithRow(cells[n], RowNets(row, net, scope.Implied(row.name)), x)]
      == cells0[n := WithRows(c, rows + [row], net, scope, e)]
  {
    RowsStep(c, rows, row, net, scope, e);
  }

  /** Where the merge loop stands: what the lists still hold, and the mux grown so far. */
  ghost predicate Merged(g: Netlist, pins0: seq<Pin>, cells0: seq<Cell>, n: nat, lists: seq<seq<Sig>>, scope: Scope,
                         net: nat -> nat, e: nat,
                         cursors: seq<nat>, rows: seq<Row>, list: seq<Sig>)
    reads g
  {
    && n < |cells0| && |g.nets| == e + |rows|
    && Owned(g, lists, cursors, net) && KeptOutside(pins0, g.pins, lists)
    && g.cells == cells0[n := WithRows(cells0[n], rows, net, scope, e)]
    && Handed(g.pins, list, rows, |pins0|, e)
  }

  /** One round of the merge loop. */
  method MergeRound(g: Netlist, ghost pins0: seq<Pin>, ghost cells0: seq<Cell>, n: nat, lists: seq<seq<Sig>>,
                    scope: Scope, ghost net: nat -> nat, ghost e: nat,
                    cursors: seq<nat>, ghost rows: seq<Row>, ghost rows': seq<Row>, list: seq<Sig>, m: nat)
    returns (cursors': seq<nat>, skip: nat, list': seq<Sig>)
    requires g.Ready() && Merged(g, pins0, cells0, n, lists, scope, net, e, cursors, rows, list)
    requires ListedBelow(lists, |pins0|)
    requires m in scope.regs && scope.regs[m] < e && scope.zero == g.zeroNet
    requires rows' == rows + [NextRow(lists, cursors, m)]
    modifies g
    ensures g.KeepsDrivers(old(g.nets)) && g.Ready() && (old(g.tidy) ==> g.tidy)
    ensures cursors' == Advanced(lists, cursors, m, |lists|) && skip == Skip(Remaining(lists, cursors), m)
    ensures Merged(g, pins0, cells0, n, lists, scope, net, e, cursors', rows', list')
  {
    ghost var pins1, cells1, row, x := g.pins, g.cells, NextRow(lists, cursors, m), |g.nets|;
    var p;
    p, cursors', skip := OneRow(g, n, lists, cursors, m, scope, net);
    GrownRow(cells0, cells1, n, cells0[n], rows, row, net, scope, e, x);
    KeptOutsideThen(pins0, pins1, g.pins, lists);
    HandedStep(lists, pins1, g.pins, list, rows, |pins0|, e, p, row, x);
    list' := list + [Sig(m, p)];
  }

  /** The merge after some rounds, on the lists and on the netlist. */
  ghost predicate MergePoint(g: Netlist, pins0: seq<Pin>, cells0: seq<Cell>, n: nat, lists: seq<seq<Sig>>,
                             combined: seq<Sig>, scope: Scope, net: nat -> nat,
                             e: nat, cursors: seq<nat>, i: nat, rows: seq<Row>, list: seq<Sig>)
    reads g
  {
    Midway(lists, cursors, combined, i, rows) && Merged(g, pins0, cells0, n, lists, scope, net, e, cursors, rows, list)
  }

  /** One turn of the loop: the front name of what is left. */
  method MergeTurn(g: Netlist, ghost pins0: seq<Pin>, ghost cells0: seq<Cell>, n: nat, lists: seq<seq<Sig>>,
                   combined: seq<Sig>, scope: Scope, ghost net: nat -> nat,
                   ghost e: nat, cursors: seq<nat>, i: nat, ghost rows: seq<Row>, list: seq<Sig>)
    returns (cursors': seq<nat>, i': nat, ghost rows': seq<Row>, list': seq<Sig>)
    requires g.Ready() && MergePoint(g, pins0, cells0, n, lists, combined, scope, net, e, cursors, i, rows, list)
    requires i < |combined|
    requires ListedBelow(lists, |pins0|) && Named(lists, scope.regs, e) && scope.zero == g.zeroNet
    modifies g
    ensures g.KeepsDrivers(old(g.nets)) && g.Ready() && (old(g.tidy) ==> g.tidy)
    ensures MergePoint(g, pins0, cells0, n, lists, combined, scope, net, e, cursors', i', rows', list')
    ensures i < i' <= |combined|
  {
    var m := combined[i].name;
    rows' := rows + [NextRow(lists, cursors, m)];
    DueNamed(lists, cursors, combined, i, rows, scope.regs, e);
    var skip;
    cursors', skip, list' := MergeRound(g, pins0, cells0, n, lists, scope, net, e, cursors, rows, rows', list, m);
    i' := i + skip;
    Round(lists, cursors, combined, i, rows, m, skip, cursors', i', rows');
  }

  /** The merge loop: `combined` says which name is next, the cursors which lists have it. */
  method MergeLoop(g: Netlist, ghost pins0: seq<Pin>, ghost cells0: seq<Cell>, n: nat, lists: seq<seq<Sig>>,
                   combined: seq<Sig>, scope: Scope,
                   ghost net: nat -> nat, ghost e: nat, start: seq<nat>) returns (list: seq<Sig>,
                     ghost rows: seq<Row>, ghost cursors: seq<nat>)
    requires g.Ready() && MergePoint(g, pins0, cells0, n, lists, combined, scope, net, e, start, 0, [], [])
    requires ListedBelow(lists, |pins0|) && Named(lists, scope.regs, e) && scope.zero == g.zeroNet
    modifies g
    ensures g.KeepsDrivers(old(g.nets)) && g.Ready() && (old(g.tidy) ==> g.tidy)
    ensures MergePoint(g, pins0, cells0, n, lists, combined, scope, net, e, cursors, |combined|, rows, list)
  {
    var cs, i := start, 0;
    list, rows := [], [];
    while i < |combined|
      invariant i <= |combined|
      invariant g.KeepsDrivers(old(g.nets)) && g.Ready() && (old(g.tidy) ==> g.tidy)
      invariant MergePoint(g, pins0, cells0, n, lists, combined, scope, net, e, cs, i, rows, list)
      decreases |combined| - i
    {
      cs, i, rows, list := MergeTurn(g, pins0, cells0, n, lists, combined, scope, net, e, cs, i, rows, list);
    }
    cursors := cs;
  }

  /** The merge loop. Each name gets a mux port and an output; the rows say which pins went where. */
  method MergeStatements(g: Netlist, n: nat, lists: seq<seq<Sig>>, scope: Scope,
                         ghost net: nat -> nat) returns (list: seq<Sig>)
    requires g.Ready() && n < |g.cells| && AllSorted(lists) && Named(lists, scope.regs, |g.nets|)
    requires scope.zero == g.zeroNet
    requires Owned(g, lists, Zeros(|lists|), net)
    modifies g
    ensures g.KeepsDrivers(old(g.nets))
    ensures g.Ready() && (old(g.tidy) ==> g.tidy) && KeptOutside(old(g.pins), g.pins, lists)
    ensures |g.nets| == |old(g.nets)| + |Rows(lists)|
    ensures g.cells == old(g.cells)[n := WithRows(old(g.cells[n]), Rows(lists), net, scope, |old(g.nets)|)]
    ensures Handed(g.pins, list, Rows(lists), |old(g.pins)|, |old(g.nets)|)
  {
    hide Rows;
    ghost var cells0, e, pins0, rows, cursors := g.cells, |g.nets|, g.pins, [], [];
    var combined, start := Sort(Concat(lists)), Zeros(|lists|);
    Start(lists, start);
    assert g.cells == cells0[n := cells0[n]];
    list, rows, cursors := MergeLoop(g, pins0, cells0, n, lists, combined, scope, net, e, start);
    Finish(lists, cursors, combined, rows);
  }
}
