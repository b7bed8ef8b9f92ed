/** create_if_control_signals and create_case_control_signals: one select pin for every branch. */
module Controls {
  import opened Wrappers
  import opened Bits
  import opened Semantics
  import opened Runs
  import opened Netlists
  import opened RippleCells
  import opened Growth
  import opened Gates
  import opened Statements

  /** `b` has the cells of `a`, all but cell `n` unchanged, and more behind them; no behaviour was lost or gained. */
  ghost predicate Grown(a: NL, b: NL, n: nat) {
    && Lowers(a, b) && WellFormed(b) && |a.cells| <= |b.cells|
    && forall k {:trigger a.cells[k]} {:trigger b.cells[k]} :: 0 <= k < |a.cells| && k != n ==> b.cells[k] == a.cells[k]
  }

  /** The cells from `c0` on, all but `n`, hold. */
  ghost predicate HoldFrom(cells: seq<Cell>, c0: nat, v: Valuation) {
    forall k {:trigger cells[k]} :: c0 <= k < |cells| ==> Holds(cells[k], v)
  }

  lemma {:induction false} GrownReflexive(a: NL, n: nat)
    requires WellFormed(a)
    ensures Grown(a, a, n)
  {
    LowersReflexive(a);
  }

  lemma {:induction false} GrownThen(a: NL, b: NL, c: NL, n: nat)
    requires Grown(a, b, n) && Grown(b, c, n)
    ensures Grown(a, c, n)
  {
    LowersTransitive(a, b, c);
    forall k {:trigger a.cells[k]} | 0 <= k < |a.cells| && k != n ensures c.cells[k] == a.cells[k] {
      assert b.cells[k] == a.cells[k];
    }
  }

  lemma {:induction false} HoldsEarlier(b: seq<Cell>, c: seq<Cell>, c0: nat, v: Valuation)
    requires c0 <= |b| <= |c| && HoldFrom(c, c0, v)
    requires forall k {:trigger b[k]} :: c0 <= k < |b| ==> c[k] == b[k]
    ensures HoldFrom(b, c0, v)
  {
    forall k {:trigger b[k]} | c0 <= k < |b| ensures Holds(b[k], v) { assert c[k] == b[k]; }
  }

  method LoweredGate(g: Netlist, kind: Kind, inPorts: seq<Port>, outPorts: seq<nat>, pins: seq<nat>,
                     ghost ins: seq<Option<nat>>, ghost n: nat)
    returns (p: nat)
    requires g.Ready() && WellFormed(g.Meaning()) && AllFree(g, pins, ins) && SlotsBelow(ins, |g.nets|)
    requires Combinational(kind)
    modifies g
    ensures g.KeepsDrivers(old(g.nets))
    ensures g.Ready() && |g.nets| == |old(g.nets)| + 1 && (old(g.tidy) ==> g.tidy) && KeptBut(old(g.pins), g.pins, pins)
    ensures g.cells == old(g.cells) + [Cell(kind, ins, [Some(|old(g.nets)|)], inPorts, outPorts)]
    ensures p >= |old(g.pins)| && Free(g, p, Some(|old(g.nets)|))
    ensures Grown(old(g.Meaning()), g.Meaning(), n)
  {
    ghost var a := g.Meaning();
    p := GateOver(g, kind, inPorts, outPorts, pins, ins);
    ghost var c := Cell(kind, ins, [Some(a.nets)], inPorts, outPorts);
    assert c.outs == FreshOuts(a.nets, 1);
    AppendLowers(a, g.Meaning(), c);
  }

  /** The mux of a choice before its first data port: `j` controls are set. */
  ghost predicate BareMux(c: Cell, width: nat) {
    c.kind.MultiPortMux? && |c.ins| == width && c.outs == [] && c.inPorts == [Port(Plain, width)]
  }

  /** A control pin of the mux. */
  method SeatControl(g: Netlist, n: nat, j: nat, p: nat, ghost width: nat, ghost e: nat)
    requires g.Ready() && WellFormed(g.Meaning()) && n < |g.cells| && BareMux(g.cells[n], width) && j < width
    requires g.cells[n].ins[j] == None
    requires Free(g, p, Some(e)) && e < |g.nets|
    modifies g
    ensures g.KeepsDrivers(old(g.nets))
    ensures g.Ready() && |g.nets| == |old(g.nets)| && (old(g.tidy) ==> g.tidy) && KeptBut(old(g.pins), g.pins, [p])
    ensures g.cells == SetIn(old(g.cells), n, j, Some(e)) && BareMux(g.cells[n], width)
    ensures Grown(old(g.Meaning()), g.Meaning(), n)
  {
    ghost var a := g.Meaning();
    assert InRange(a.cells[n], a.nets);
    g.EmptySlots(n);
    g.AddInputPinToNode(n, p, j);
    ghost var c := g.cells[n];
    assert c.outs == FreshOuts(a.nets, 0);
    GrowLowers(a, g.Meaning(), n, c);
  }

  lemma {:induction false} OrHolds(ins: seq<Option<nat>>, nets: seq<nat>, e: nat, v: Valuation)
    requires ins == Somes(nets) && Holds(Cell(LogicalOr, ins, [Some(e)], [Port(Plain, |nets|)], [1]), v)
    ensures v(e) == Any(Values(nets, v))
  {
    var c := Cell(LogicalOr, ins, [Some(e)], [Port(Plain, |nets|)], [1]);
    assert Vals(ins, v) == Values(nets, v);
    assert c.outs[0].Some?;
  }

  /** The condition as one net: an OR gate unless it is one bit wide. */
  method Condition(g: Netlist, cond: seq<nat>, ghost n: nat) returns (p: nat, ghost e: nat)
    requires g.Ready() && WellFormed(g.Meaning()) && forall i :: 0 <= i < |cond| ==> cond[i] < |g.nets|
    modifies g
    ensures g.KeepsDrivers(old(g.nets))
    ensures g.Ready() && (old(g.tidy) ==> g.tidy) && g.KeepsFree(old(g.pins)) && |old(g.nets)| <= |g.nets|
    ensures e < |g.nets| && p >= |old(g.pins)| && Free(g, p, Some(e))
    ensures Grown(old(g.Meaning()), g.Meaning(), n) && g.cells[..|old(g.cells)|] == old(g.cells)
    ensures forall v: Valuation :: HoldFrom(g.cells, |old(g.cells)|, v) ==> v(e) == Any(Values(cond, v))
  {
    ghost var a := g.Meaning();
    var pins := FreshPins(g, cond);
    ghost var pins1 := g.pins;
    if |cond| != 1 {
      e := |g.nets|;
      p := LoweredGate(g, LogicalOr, [Port(Plain, |cond|)], [1], pins, Somes(cond), n);
      assert g.cells[|a.cells|] == Cell(LogicalOr, Somes(cond), [Some(e)], [Port(Plain, |cond|)], [1]);
      forall v: Valuation | HoldFrom(g.cells, |a.cells|, v)
        ensures v(e) == Any(Values(cond, v)) { OrHolds(Somes(cond), cond, e, v); }
    } else {
      p, e := pins[0], cond[0];
      GrownReflexive(a, n);
      forall v: Valuation ensures v(e) == Any(Values(cond, v)) { assert Values(cond, v)[0] == v(e); }
    }
  }

  /** The mux `n` has its select pins, on nets that carry what the selects mean. */
  ghost predicate ControlsDone(a: NL, b: NL, n: nat, s: Stmt, ctrl: seq<nat>)
    requires IsChoice(s)
  {
    && n < |a.cells| && Grown(a, b, n) && |ctrl| == Arity(s)
    && b.cells[n] == a.cells[n].(ins := Somes(ctrl)) && (forall j :: 0 <= j < |ctrl| ==> ctrl[j] < b.nets)
    && forall v: Valuation :: HoldFrom(b.cells, |a.cells|, v) ==> Selects(s, v, ctrl)
  }

  ghost predicate Selects(s: Stmt, v: Valuation, ctrl: seq<nat>)
    requires IsChoice(s)
  {
    |ctrl| == Arity(s) && forall j {:trigger ctrl[j]} :: 0 <= j < |ctrl| ==> v(ctrl[j]) == Select(s, v, j)
  }

  ghost predicate NetsBelow(nets: seq<nat>, limit: nat) {
    forall i :: 0 <= i < |nets| ==> nets[i] < limit
  }

  lemma {:induction false} NotGateHolds(e: nat, x: nat, v: Valuation)
    requires Holds(Cell(LogicalNot, [Some(e)], [Some(x)], [], []), v)
    ensures v(x) == !v(e)
  {
    var c := Cell(LogicalNot, [Some(e)], [Some(x)], [], []);
    var xs := Vals(c.ins, v);
    assert xs[0] == v(e);
    assert Any(xs) == v(e);
    assert c.outs[0].Some?;
  }

  /** A copy of the pin on net `e`, inverted. */
  method Inverted(g: Netlist, e: nat, ghost n: nat) returns (p: nat)
    requires g.Ready() && WellFormed(g.Meaning()) && e < |g.nets|
    modifies g
    ensures g.KeepsDrivers(old(g.nets))
    ensures g.Ready() && |g.nets| == |old(g.nets)| + 1 && (old(g.tidy) ==> g.tidy) && g.KeepsFree(old(g.pins))
    ensures g.cells == old(g.cells) + [Cell(LogicalNot, [Some(e)], [Some(|old(g.nets)|)], [], [])]
    ensures p >= |old(g.pins)| && Free(g, p, Some(|old(g.nets)|))
    ensures Grown(old(g.Meaning()), g.Meaning(), n)
  {
    var pins := FreshPins(g, [e]);
    assert Somes([e]) == [Some(e)];
    p := LoweredGate(g, LogicalNot, [], [], pins, [Some(e)], n);
  }

  method IfControls(g: Netlist, n: nat, s: Stmt) returns (ghost ctrl: seq<nat>)
    requires g.Ready() && WellFormed(g.Meaning()) && s.If? && NetsBelow(s.cond, |g.nets|)
    requires n < |g.cells| && BareMux(g.cells[n], 2) && g.cells[n].ins == Nones(2)
    modifies g
    ensures g.KeepsDrivers(old(g.nets))
    ensures g.Ready() && (old(g.tidy) ==> g.tidy) && g.KeepsFree(old(g.pins)) && |old(g.nets)| <= |g.nets|
    ensures ControlsDone(old(g.Meaning()), g.Meaning(), n, s, ctrl)
  {
    hide Netlist.Valid, Netlist.Ready, Grown, Lowers, WellFormed;
    ghost var a := g.Meaning();
    var p;
    ghost var e;
    p, e := Condition(g, s.cond, n);
    ghost var b1 := g.Meaning();
    assert b1.cells[n] == b1.cells[..|a.cells|][n];
    var e' := g.pins[p].net.value;
    SeatControl(g, n, 0, p, 2, e);
    ghost var b2 := g.Meaning();
    GrownThen(a, b1, b2, n);
    p := Inverted(g, e', n);
    ghost var b3, x := g.Meaning(), |g.nets| - 1;
    GrownThen(a, b2, b3, n);
    SeatControl(g, n, 1, p, 2, x);
    GrownThen(a, b3, g.Meaning(), n);
    ctrl := [e, x];
    assert g.cells[n].ins == [Some(e), Some(x)] == Somes(ctrl);
    IfSelects(s, b1.cells, g.cells, |a.cells|, n, e, x);
  }

  lemma {:induction false} IfSelects(s: Stmt, mid: seq<Cell>, cells: seq<Cell>, c0: nat, n: nat, e: nat, x: nat)
    requires s.If? && n < c0 <= |mid| && |cells| == |mid| + 1
    requires forall k {:trigger mid[k]} :: c0 <= k < |mid| ==> cells[k] == mid[k]
    requires cells[|mid|] == Cell(LogicalNot, [Some(e)], [Some(x)], [], [])
    requires forall v: Valuation :: HoldFrom(mid, c0, v) ==> v(e) == Any(Values(s.cond, v))
    ensures forall v: Valuation :: HoldFrom(cells, c0, v) ==> Selects(s, v, [e, x])
  {
    forall v: Valuation | HoldFrom(cells, c0, v) ensures Selects(s, v, [e, x]) {
      HoldsEarlier(mid, cells, c0, v);
      NotGateHolds(e, x, v);
      assert [e, x][0] == e && [e, x][1] == x;
    }
  }

  function EqualCell(subject: seq<nat>, key: seq<nat>, e: nat): Cell {
    Cell(LogicalEqual, Somes(subject + key), [Some(e)], [Port(Plain, |subject|), Port(Plain, |key|)], [1])
  }

  lemma {:induction false} EqualHolds(subject: seq<nat>, key: seq<nat>, e: nat, v: Valuation)
    requires Holds(EqualCell(subject, key, e), v)
    ensures v(e) == Matches(subject, key, v)
  {
    var c := EqualCell(subject, key, e);
    PortValues(c, v);
    assert Vals(PortA(c), v) == Values(subject, v);
    assert Vals(PortB(c), v) == Values(key, v);
    assert c.outs[0].Some?;
  }

  lemma {:induction false} NorHolds(nets: seq<nat>, e: nat, v: Valuation)
    requires Holds(Cell(LogicalNor, Somes(nets), [Some(e)], [Port(Plain, |nets|)], [1]), v)
    ensures v(e) == forall i :: 0 <= i < |nets| ==> !v(nets[i])
  {
    var c := Cell(LogicalNor, Somes(nets), [Some(e)], [Port(Plain, |nets|)], [1]);
    var x := Vals(c.ins, v);
    assert forall i {:trigger nets[i]} :: 0 <= i < |nets| ==> x[i] == v(nets[i]);
    assert forall i {:trigger x[i]} :: 0 <= i < |nets| ==> x[i] == v(nets[i]);
    assert v(e) == !Any(x) by { assert c.outs[0].Some?; }
  }

  /** Item `j`: a comparison into select `j`, and a copy of its pin for the default. */
  method ItemControl(g: Netlist, n: nat, j: nat, subject: seq<nat>, key: seq<nat>, ghost width: nat) returns (q: nat,
                     ghost e: nat)
    requires g.Ready() && WellFormed(g.Meaning()) && NetsBelow(subject, |g.nets|) && NetsBelow(key, |g.nets|)
    requires n < |g.cells| && BareMux(g.cells[n], width) && j < width && g.cells[n].ins[j] == None
    modifies g
    ensures g.KeepsDrivers(old(g.nets))
    ensures g.Ready() && (old(g.tidy) ==> g.tidy) && g.KeepsFree(old(g.pins)) && |g.nets| == |old(g.nets)| + 1
    ensures e == |old(g.nets)| && g.cells == SetIn(old(g.cells), n, j, Some(e)) + [EqualCell(subject, key, e)]
    ensures q >= |old(g.pins)| && Free(g, q, Some(e))
    ensures Grown(old(g.Meaning()), g.Meaning(), n)
  {
    hide Netlist.Valid, Netlist.Ready, Lowers;
    ghost var a := g.Meaning();
    e := |g.nets|;
    var pins := FreshPins(g, subject + key);
    var p := LoweredGate(g, LogicalEqual, [Port(Plain, |subject|), Port(Plain, |key|)], [1], pins,
      Somes(subject + key), n);
    ghost var b1 := g.Meaning();
    var e' := g.pins[p].net.value;
    SeatControl(g, n, j, p, width, e);
    GrownThen(a, b1, g.Meaning(), n);
    pins := FreshPins(g, [e']);
    q := pins[0];
    assert SetIn(a.cells + [EqualCell(subject, key, e)], n, j, Some(e))
      == SetIn(a.cells, n, j, Some(e)) + [EqualCell(subject, key, e)];
  }

  /** The first `i` selects of a case and what they say. */
  ghost predicate ItemsDone(a: NL, b: NL, n: nat, s: Stmt, ctrl: seq<nat>, i: nat)
    requires s.Case? && i <= |s.items|
  {
    && n < |a.cells| && BareMux(a.cells[n], Arity(s)) && Grown(a, b, n) && |ctrl| == i && NetsBelow(ctrl, b.nets)
    && b.cells[n] == a.cells[n].(ins := Somes(ctrl) + Nones(Arity(s) - i))
    && forall v: Valuation :: HoldFrom(b.cells, |a.cells|, v) ==> ItemsSay(s, v, ctrl)
  }

  ghost predicate ItemsSay(s: Stmt, v: Valuation, ctrl: seq<nat>)
    requires s.Case? && |ctrl| <= |s.items|
  {
    forall j {:trigger ctrl[j]} :: 0 <= j < |ctrl| ==> v(ctrl[j]) == Matches(s.subject, s.items[j].key, v)
  }

  lemma {:induction false} ItemStep(a: NL, b: NL, c: NL, n: nat, s: Stmt, ctrl: seq<nat>, i: nat, e: nat)
    requires s.Case? && i < |s.items| && ItemsDone(a, b, n, s, ctrl, i) && Grown(b, c, n) && e == b.nets
    requires c.nets == e + 1
    requires c.cells == SetIn(b.cells, n, i, Some(e)) + [EqualCell(s.subject, s.items[i].key, e)]
    ensures ItemsDone(a, c, n, s, ctrl + [e], i + 1)
  {
    GrownThen(a, b, c, n);
    assert c.cells[n].ins == Somes(ctrl + [e]) + Nones(Arity(s) - i - 1);
    forall v: Valuation | HoldFrom(c.cells, |a.cells|, v) ensures ItemsSay(s, v, ctrl + [e]) {
      HoldsEarlier(b.cells, c.cells, |a.cells|, v);
      assert ItemsSay(s, v, ctrl);
      assert c.cells[|b.cells|] == EqualCell(s.subject, s.items[i].key, e);
      EqualHolds(s.subject, s.items[i].key, e, v);
    }
  }

  predicate CaseNets(s: Stmt, limit: nat)
    requires s.Case?
  {
    (forall i :: 0 <= i < |s.subject| ==> s.subject[i] < limit)
    && forall j :: 0 <= j < |s.items| ==> forall i :: 0 <= i < |s.items[j].key| ==> s.items[j].key[i] < limit
  }

  /** The loop over the items; `others` are the copies for the default. */
  method ItemControls(g: Netlist, n: nat, s: Stmt) returns (others: seq<nat>, ghost ctrl: seq<nat>)
    requires g.Ready() && WellFormed(g.Meaning()) && s.Case? && CaseNets(s, |g.nets|)
    requires n < |g.cells| && BareMux(g.cells[n], Arity(s)) && g.cells[n].ins == Nones(Arity(s))
    modifies g
    ensures g.KeepsDrivers(old(g.nets))
    ensures g.Ready() && (old(g.tidy) ==> g.tidy) && g.KeepsFree(old(g.pins)) && |old(g.nets)| <= |g.nets|
    ensures ItemsDone(old(g.Meaning()), g.Meaning(), n, s, ctrl, |s.items|)
    ensures AllFree(g, others, Somes(ctrl)) && AllAtLeast(others, |old(g.pins)|)
  {
    hide Netlist.Ready;
    ghost var a := g.Meaning();
    others, ctrl := [], [];
    GrownReflexive(a, n);
    assert Somes([]) + Nones(Arity(s)) == Nones(Arity(s));
    for i := 0 to |s.items|
      invariant g.KeepsDrivers(old(g.nets))
      invariant g.Ready() && (old(g.tidy) ==> g.tidy) && g.KeepsFree(old(g.pins)) && |old(g.nets)| <= |g.nets|
      invariant ItemsDone(a, g.Meaning(), n, s, ctrl, i)
      invariant AllFree(g, others, Somes(ctrl)) && AllAtLeast(others, |old(g.pins)|)
    {
      ghost var b := g.Meaning();
      ghost var e;
      var q;
      q, e := ItemControl(g, n, i, s.subject, s.items[i].key, Arity(s));
      ItemStep(a, b, g.Meaning(), n, s, ctrl, i, e);
      others, ctrl := others + [q], ctrl + [e];
    }
  }

  method CaseControls(g: Netlist, n: nat, s: Stmt) returns (ghost ctrl: seq<nat>)
    requires g.Ready() && WellFormed(g.Meaning()) && s.Case? && CaseNets(s, |g.nets|)
    requires n < |g.cells| && BareMux(g.cells[n], Arity(s)) && g.cells[n].ins == Nones(Arity(s))
    modifies g
    ensures g.KeepsDrivers(old(g.nets))
    ensures g.Ready() && (old(g.tidy) ==> g.tidy) && g.KeepsFree(old(g.pins)) && |old(g.nets)| <= |g.nets|
    ensures ControlsDone(old(g.Meaning()), g.Meaning(), n, s, ctrl)
  {
    hide Netlist.Valid, Netlist.Ready, WellFormed;
    ghost var a := g.Meaning();
    var others;
    others, ctrl := ItemControls(g, n, s);
    ghost var b := g.Meaning();
    if s.otherwise.Some? {
      ghost var e := |g.nets|;
      var p := LoweredGate(g, LogicalNor, [Port(Plain, |s.items|)], [1], others, Somes(ctrl), n);
      ghost var c := g.Meaning();
      GrownThen(a, b, c, n);
      SeatControl(g, n, |s.items|, p, Arity(s), e);
      GrownThen(a, c, g.Meaning(), n);
      DefaultSelects(s, b.cells, g.cells, |a.cells|, n, ctrl, e);
      assert g.cells[n].ins == Somes(ctrl + [e]);
      ctrl := ctrl + [e];
    } else {
      assert g.cells[n].ins == Somes(ctrl);
      forall v: Valuation | HoldFrom(g.cells, |a.cells|, v) ensures Selects(s, v, ctrl) { assert ItemsSay(s, v, ctrl); }
    }
  }

  lemma {:induction false} DefaultSelects(s: Stmt, mid: seq<Cell>, cells: seq<Cell>, c0: nat, n: nat, ctrl: seq<nat>,
                                          e: nat)
    requires s.Case? && s.otherwise.Some? && n < c0 <= |mid| && |cells| == |mid| + 1 && |ctrl| == |s.items|
    requires forall k {:trigger mid[k]} :: c0 <= k < |mid| ==> cells[k] == mid[k]
    requires cells[|mid|] == Cell(LogicalNor, Somes(ctrl), [Some(e)], [Port(Plain, |ctrl|)], [1])
    requires forall v: Valuation :: HoldFrom(mid, c0, v) ==> ItemsSay(s, v, ctrl)
    ensures forall v: Valuation :: HoldFrom(cells, c0, v) ==> Selects(s, v, ctrl + [e])
  {
    forall v: Valuation | HoldFrom(cells, c0, v) ensures Selects(s, v, ctrl + [e]) {
      HoldsEarlier(mid, cells, c0, v);
      assert ItemsSay(s, v, ctrl);
      NorHolds(ctrl, e, v);
      forall j {:trigger (ctrl + [e])[j]} | 0 <= j < |ctrl + [e]| ensures v((ctrl + [e])[j]) == Select(s, v, j) {
        if j < |ctrl| { assert (ctrl + [e])[j] == ctrl[j]; } else { assert forall i :: 0 <= i < |ctrl| ==>
          v(ctrl[i]) == Matches(s.subject, s.items[i].key, v); }
      }
    }
  }
}
