/** terminate_registered_assignment, and what a whole clocked always block does. */
module AlwaysBlocks {
  import opened Wrappers
  import opened Bits
  import opened Semantics
  import opened Runs
  import opened Netlists
  import opened RippleCells
  import opened Growth
  import opened Gates
  import opened Statements
  import opened Merging
  import opened MuxStatements
  import opened Controls
  import opened StatementLists
  import opened StatementLowering

  function RegisterCell(d: nat, clk: nat, q: nat): Cell {
    Cell(FlipFlop, [Some(d), Some(clk)], [Some(q)], [Port(Plain, 1)], [1])
  }

  /** The flip-flop of one name: the clock, the data pin, and the register's own net. */
  method MakeRegister(g: Netlist, p: nat, clk: nat, q: nat, ghost d: nat)
    requires g.Ready() && clk < |g.nets| && q < |g.nets| && g.nets[q].driver == None && Free(g, p, Some(d))
    modifies g
    ensures g.Ready() && (old(g.tidy) ==> g.tidy) && |g.nets| == |old(g.nets)| && KeptBut(old(g.pins), g.pins, [p])
    ensures g.cells == old(g.cells) + [RegisterCell(d, clk, q)]
    ensures g.nets[q].driver.Some?
    ensures forall x {:trigger g.nets[x]} :: 0 <= x < |g.nets| && x != q ==> g.nets[x].driver == old(g.nets)[x].driver
  {
    var n := SeatRegisterPins(g, p, clk, d);
    ghost var pins1 := g.pins;
    g.DriveNet(n, 0, q);
    assert g.cells[n].outs == [Some(q)];
    KeptThen(old(g.pins), pins1, g.pins, [p]);
  }

  method SeatRegisterPins(g: Netlist, p: nat, clk: nat, ghost d: nat) returns (n: nat)
    requires g.Ready() && clk < |g.nets| && Free(g, p, Some(d))
    modifies g
    ensures g.Ready() && (old(g.tidy) ==> g.tidy) && |g.nets| == |old(g.nets)| && g.KeepsDrivers(old(g.nets))
    ensures KeptBut(old(g.pins), g.pins, [p])
    ensures n == |old(g.cells)|
    ensures g.cells == old(g.cells) + [Cell(FlipFlop, [Some(d), Some(clk)], [None], [Port(Plain, 1)], [1])]
  {
    hide Netlist.Valid;
    assert Nones(1) == [None] && Nones(2) == [None, None];
    n := g.AllocateNode(FlipFlop, [Port(Plain, 1)], 2, [1], 1);
    g.AttachNet(clk, n, 1);
    ghost var pins1 := g.pins;
    g.EmptySlots(n);
    g.AddInputPinToNode(n, p, 0);
    assert g.cells[n].ins == [Some(d), Some(clk)];
    assert [p][0] == p;
    KeptLater(old(g.pins), pins1, g.pins, p);
  }

  lemma {:induction false} KeptLater(before: seq<Pin>, mid: seq<Pin>, after: seq<Pin>, p: nat)
    requires |before| <= |mid| <= |after|
    requires (forall q {:trigger before[q]} :: 0 <= q < |before| && before[q].node == None ==> mid[q] == before[q])
    requires forall q {:trigger mid[q]} :: 0 <= q < |mid| && q != p ==> after[q] == mid[q]
    ensures KeptBut(before, after, [p])
  {
    forall q {:trigger before[q]} | 0 <= q < |before| && before[q].node == None && q !in [p]
      ensures after[q] == before[q] {
      assert q != p by { assert [p][0] == p; }
      assert mid[q] == before[q];
    }
  }

  /** The flip-flops of a list, in its order. */
  function RegisterCells(list: seq<Sig>, net: nat -> nat, regs: map<nat, nat>, clk: nat): (r: seq<Cell>)
    requires forall i {:trigger list[i]} :: 0 <= i < |list| ==> list[i].name in regs
    ensures |r| == |list|
    ensures forall i {:trigger r[i]} :: 0 <= i < |r| ==> r[i] == RegisterCell(net(list[i].pin), clk, regs[list[i].name])
  {
    seq(|list|, (i: nat) requires i < |list| => RegisterCell(net(list[i].pin), clk, regs[list[i].name]))
  }

  /** No name occurs twice. */
  ghost predicate NamesOnce(list: seq<Sig>) {
    forall i, j {:trigger list[i], list[j]} :: 0 <= i < j < |list| ==> list[i].name != list[j].name
  }

  ghost predicate RegistersApart(regs: map<nat, nat>) {
    forall x, y :: x in regs && y in regs && x != y ==> regs[x] != regs[y]
  }

  ghost predicate Assigned(list: seq<Sig>, i: nat, x: nat) {
    exists j {:trigger list[j]} :: 0 <= j < i && j < |list| && list[j].name == x
  }

  /** Exactly the registers of the first `i` names are driven. */
  ghost predicate DrivenUpTo(nets: seq<Net>, regs: map<nat, nat>, list: seq<Sig>, i: nat) {
    forall x {:trigger regs[x]} :: x in regs ==>
      regs[x] < |nets| && (nets[regs[x]].driver.Some? <==> Assigned(list, i, x))
  }

  ghost predicate OnceUpTo(list: seq<Sig>, i: nat) {
    forall j, k {:trigger list[j], list[k]} :: 0 <= j < k < i && k < |list| ==> list[j].name != list[k].name
  }

  lemma {:induction false} DrivenStep(nets: seq<Net>, nets': seq<Net>, regs: map<nat, nat>, list: seq<Sig>, i: nat,
                                      q: nat)
    requires RegistersApart(regs) && i < |list| && list[i].name in regs && q == regs[list[i].name]
    requires DrivenUpTo(nets, regs, list, i)
    requires |nets'| == |nets| && q < |nets| && nets'[q].driver.Some?
    requires forall x {:trigger nets'[x]} :: 0 <= x < |nets| && x != q ==> nets'[x].driver == nets[x].driver
    ensures DrivenUpTo(nets', regs, list, i + 1)
  {
    forall x {:trigger regs[x]} | x in regs ensures nets'[regs[x]].driver.Some? <==> Assigned(list, i + 1, x) {
      if x == list[i].name {
        assert Assigned(list, i + 1, x);
      } else {
        assert regs[x] != q;
        assert Assigned(list, i + 1, x) <==> Assigned(list, i, x);
      }
    }
  }

  lemma {:induction false} OnceStep(list: seq<Sig>, i: nat)
    requires OnceUpTo(list, i) && i < |list| && !Assigned(list, i, list[i].name)
    ensures OnceUpTo(list, i + 1)
  {
  }

  lemma {:induction false} AppendSlice(a: seq<Cell>, b: seq<Cell>, i: nat)
    requires i < |b|
    ensures a + b[..i] + [b[i]] == a + b[..i + 1]
  {
    assert b[..i + 1] == b[..i] + [b[i]];
  }

  /** The loop over the assignments. It gives up when a register gets a second driver. */
  method TerminateRegistered(g: Netlist, list: seq<Sig>, regs: map<nat, nat>, clk: nat,
                             ghost net: nat -> nat) returns (ok: bool)
    requires g.Ready() && clk < |g.nets| && RegistersApart(regs) && InScope(list, regs) && PinsOnce(list)
    requires DrivenUpTo(g.nets, regs, [], 0)
    requires forall i {:trigger list[i]} :: 0 <= i < |list| ==> FreeIn(g.pins, list[i].pin, Some(net(list[i].pin)))
    modifies g
    ensures g.Ready() && (old(g.tidy) ==> g.tidy)
    ensures ok <==> NamesOnce(list)
    ensures ok ==> |g.nets| == |old(g.nets)| && g.cells == old(g.cells) + RegisterCells(list, net, regs, clk)
  {
    hide Netlist.Valid;
    ok := true;
    ghost var cells0, cells := g.cells, RegisterCells(list, net, regs, clk);
    assert cells[..0] == [];
    assert forall x :: !Assigned([], 0, x) && !Assigned(list, 0, x);
    for i := 0 to |list|
      invariant g.Ready() && (old(g.tidy) ==> g.tidy) && |g.nets| == |old(g.nets)|
      invariant g.cells == cells0 + cells[..i]
      invariant OnceUpTo(list, i) && DrivenUpTo(g.nets, regs, list, i)
      invariant forall j {:trigger list[j]} :: i <= j < |list| ==> FreeIn(g.pins, list[j].pin, Some(net(list[j].pin)))
    {
      var q := regs[list[i].name];
      if g.nets[q].driver.Some? {
        assert Assigned(list, i, list[i].name);
        ok := false;
        return;
      }
      ghost var pins1, nets1 := g.pins, g.nets;
      MakeRegister(g, list[i].pin, clk, q, net(list[i].pin));
      DrivenStep(nets1, g.nets, regs, list, i, q);
      OnceStep(list, i);
      AppendSlice(cells0, cells, i);
      StillFree(pins1, g.pins, list, i, net);
    }
    assert cells[..|list|] == cells;
  }

  lemma {:induction false} StillFree(pins: seq<Pin>, pins': seq<Pin>, list: seq<Sig>, i: nat, net: nat -> nat)
    requires PinsOnce(list) && i < |list| && KeptBut(pins, pins', [list[i].pin])
    requires forall j {:trigger list[j]} :: i <= j < |list| ==> FreeIn(pins, list[j].pin, Some(net(list[j].pin)))
    ensures forall j {:trigger list[j]} :: i + 1 <= j < |list| ==> FreeIn(pins', list[j].pin, Some(net(list[j].pin)))
  {
    forall j {:trigger list[j]} | i + 1 <= j < |list| ensures FreeIn(pins', list[j].pin, Some(net(list[j].pin))) {
      assert list[j].pin !in [list[i].pin];
    }
  }

  // ----- a whole always block -----

  lemma {:induction false} NamesOnceCounts(list: seq<Sig>, i: nat, j: nat)
    requires i < j < |list| && list[i].name == list[j].name
    ensures CountIn(list, list[i].name) >= 2
  {
    if i == 0 { CountPositive(list[1..], list[0].name); assert list[1..][j - 1] == list[j]; }
    else { NamesOnceCounts(list[1..], i - 1, j - 1); }
  }

  lemma {:induction false} CountTwice(list: seq<Sig>, x: nat)
    requires CountIn(list, x) >= 2
    ensures exists i, j {:trigger list[i], list[j]} :: 0 <= i < j < |list| && list[i].name == x && list[j].name == x
  {
    if list[0].name == x {
      CountPositive(list[1..], x);
      var k :| 0 <= k < |list[1..]| && list[1..][k].name == x;
      assert list[0].name == x && list[k + 1].name == x;
    } else {
      CountTwice(list[1..], x);
      var i, j :| 0 <= i < j < |list[1..]| && list[1..][i].name == x && list[1..][j].name == x;
      assert list[i + 1].name == x && list[j + 1].name == x;
    }
  }

  /** A list without repetition comes from a statement that assigns nothing twice on a path. */
  lemma {:induction false} OnceIff(list: seq<Sig>, s: Stmt)
    requires Counted(list, s)
    ensures NamesOnce(list) <==> forall x :: Count(s, x) <= 1
  {
    if NamesOnce(list) {
      forall x: nat ensures Count(s, x) <= 1 {
        assert CountIn(list, x) == Count(s, x);
        if CountIn(list, x) >= 2 { CountTwice(list, x); }
      }
    } else {
      var i, j :| 0 <= i < j < |list| && list[i].name == list[j].name;
      NamesOnceCounts(list, i, j);
      assert CountIn(list, list[i].name) == Count(s, list[i].name);
    }
  }

  /** At step `t` register `x` takes its next value on a clock edge and keeps its value otherwise. */
  ghost predicate TakesNext(wave: Wave, t: nat, s: Stmt, x: nat, q: nat, clk: nat) {
    wave(t + 1)(q) == if Edge(Some(clk), wave(t), wave(t + 1)) then Or(Next(s, wave(t), x), wave(t)(q)) else wave(t)(q)
  }

  /** In every run the registers do what the statement says, exactly as long as what they execute passes. */
  ghost predicate Clocked(nl: NL, s: Stmt, regs: map<nat, nat>, clk: nat) {
    forall wave: Wave, store: Store, t: nat,
      x: nat {:trigger Run(nl, wave, store), TakesNext(wave, t, s, x, regs[x], clk)} ::
      Run(nl, wave, store) && Count(s, x) == 1 && x in regs ==>
        TakesNext(wave, t, s, x, regs[x], clk) == Undisturbed(wave, t, s, x, regs, clk)
  }

  /** Either the register is not clocked, or what is executed passes. */
  ghost predicate Undisturbed(wave: Wave, t: nat, s: Stmt, x: nat, regs: map<nat, nat>, clk: nat) {
    !Edge(Some(clk), wave(t), wave(t + 1)) || Passes(s, wave(t), Held(regs, wave(t)), x)
  }

  /** The present values of the registers. */
  function Held(regs: map<nat, nat>, v: Valuation): nat -> bool {
    HeldValue(Scope(regs, true, 0), v)
  }

  lemma {:induction false} SameHeld(s: Stmt, v: Valuation, h: nat -> bool, h': nat -> bool, x: nat)
    requires h(x) == h'(x)
    ensures Lowered(s, v, h, x) == Lowered(s, v, h', x) && Passes(s, v, h, x) == Passes(s, v, h', x)
    decreases s, 1
  {
    if s.Block? {
      SameHeldBody(s.body, v, h, h', x);
    } else if !s.Assign? {
      SameInputs(s, v, h, h', x);
      if Executed(s, v) < Arity(s) { SameHeld(Branch(s, Executed(s, v)), v, h, h', x); }
    }
  }

  lemma {:induction false} SameInputs(s: Stmt, v: Valuation, h: nat -> bool, h': nat -> bool, x: nat)
    requires h(x) == h'(x) && IsChoice(s)
    ensures forall j {:trigger MuxInput(s, v, h, x, j)} {:trigger MuxInput(s, v, h', x, j)} :: 0 <= j < Arity(s) ==>
      MuxInput(s, v, h, x, j) == MuxInput(s, v, h', x, j)
    decreases s, 0
  {
    forall j {:trigger MuxInput(s, v, h, x, j)} | 0 <= j < Arity(s)
      ensures MuxInput(s, v, h, x, j) == MuxInput(s, v, h', x, j) {
      SameHeld(Branch(s, j), v, h, h', x);
    }
  }

  lemma {:induction false} SameHeldBody(body: seq<Stmt>, v: Valuation, h: nat -> bool, h': nat -> bool, x: nat)
    requires h(x) == h'(x)
    ensures LoweredBody(body, v, h, x) == LoweredBody(body, v, h', x)
    ensures forall i :: 0 <= i < |body| ==> Passes(body[i], v, h, x) == Passes(body[i], v, h', x)
    decreases body, 1
  {
    if body != [] {
      SameHeld(body[0], v, h, h', x);
      SameHeldBody(body[1..], v, h, h', x);
      assert forall i :: 1 <= i < |body| ==> body[i] == body[1..][i - 1];
    }
  }

  /** The data pin of a register carries its lowered value, and its flip-flop is there. */
  lemma {:induction false} RegisterData(a: NL, mid: NL, b: NL, p0: nat, pins: seq<Pin>, list: seq<Sig>, s: Stmt,
                                        scope: Scope, clk: nat,
                                        v: Valuation, x: nat) returns (k: nat, d: nat)
    requires LoweredTo(a, mid, p0, pins, list, s, scope) && x in scope.regs && Count(s, x) == 1
    requires b.cells == mid.cells + RegisterCells(list, NetFn(pins), scope.regs, clk) && AllHold(b.cells, v)
    ensures k < |b.cells| && b.cells[k] == RegisterCell(d, clk, scope.regs[x])
    ensures Lowered(s, v, HeldValue(scope, v), x) == Some(v(d))
  {
    assert HoldFrom(mid.cells, |a.cells|, v) by {
      forall k {:trigger mid.cells[k]} | |a.cells| <= k < |mid.cells|
        ensures Holds(mid.cells[k], v) { assert b.cells[k] == mid.cells[k]; }
    }
    assert CountIn(list, x) == Count(s, x);
    CountPositive(list, x);
    var i :| 0 <= i < |list| && list[i].name == x;
    k, d := |mid.cells| + i, NetOf(pins, list[i].pin);
    assert Carries(pins, list, s, scope, v);
    assert b.cells[k] == RegisterCells(list, NetFn(pins), scope.regs, clk)[i];
  }

  /** One register over one step of a run. */
  lemma {:induction false} RegisterStep(a: NL, mid: NL, b: NL, p0: nat, pins: seq<Pin>, list: seq<Sig>, s: Stmt,
                                        scope: Scope, clk: nat,
                                        wave: Wave, store: Store, t: nat, x: nat)
    requires LoweredTo(a, mid, p0, pins, list, s, scope) && scope.sequential
    requires b.cells == mid.cells + RegisterCells(list, NetFn(pins), scope.regs, clk) && Run(b, wave, store)
    requires Count(s, x) == 1 && x in scope.regs
    ensures TakesNext(wave, t, s, x, scope.regs[x], clk) == Undisturbed(wave, t, s, x, scope.regs, clk)
  {
    assert Consistent(b, wave(t));
    var k, d := RegisterData(a, mid, b, p0, pins, list, s, scope, clk, wave(t), x);
    assert CellStep(b.cells[k], wave(t), wave(t + 1), store(t, k), store(t + 1, k));
    DataDecides(wave, t, s, x, scope, clk, d);
  }

  lemma {:induction false} DataDecides(wave: Wave, t: nat, s: Stmt, x: nat, scope: Scope, clk: nat, d: nat)
    requires scope.sequential && x in scope.regs && Count(s, x) == 1
    requires Lowered(s, wave(t), HeldValue(scope, wave(t)), x) == Some(wave(t)(d))
    requires FlipFlopStep(RegisterCell(d, clk, scope.regs[x]), wave(t), wave(t + 1))
    ensures TakesNext(wave, t, s, x, scope.regs[x], clk) == Undisturbed(wave, t, s, x, scope.regs, clk)
  {
    var v, h := wave(t), HeldValue(scope, wave(t));
    LoweringExact(s, v, h, x);
    assert scope.Implied(x) == scope.regs[x] && Scope(scope.regs, true, 0).Implied(x) == scope.regs[x];
    assert h(x) == v(scope.regs[x]) && Held(scope.regs, v)(x) == v(scope.regs[x]);
    SameHeld(s, v, h, Held(scope.regs, v), x);
    assert RegisterCell(d, clk, scope.regs[x]).outs[0].Some?;
  }

  lemma {:induction false} AlwaysClocked(a: NL, mid: NL, b: NL, p0: nat, pins: seq<Pin>, list: seq<Sig>, s: Stmt,
                                         scope: Scope, clk: nat)
    requires LoweredTo(a, mid, p0, pins, list, s, scope) && scope.sequential
    requires b.cells == mid.cells + RegisterCells(list, NetFn(pins), scope.regs, clk)
    ensures Clocked(b, s, scope.regs, clk)
  {
    forall wave: Wave, store: Store, t: nat,
      x: nat {:trigger Run(b, wave, store), TakesNext(wave, t, s, x, scope.regs[x], clk)} |
      Run(b, wave, store) && Count(s, x) == 1 && x in scope.regs
      ensures TakesNext(wave, t, s, x, scope.regs[x], clk) == Undisturbed(wave, t, s, x, scope.regs, clk)
    {
      RegisterStep(a, mid, b, p0, pins, list, s, scope, clk, wave, store, t, x);
    }
  }

  // ----- the block as a whole -----

  /** At step `t` register `x` takes the value its data pin carries on a clock edge and keeps its value otherwise. */
  ghost predicate RegisterFollows(wave: Wave, t: nat, s: Stmt, x: nat, regs: map<nat, nat>, clk: nat)
    requires x in regs
  {
    wave(t + 1)(regs[x]) ==
      if Edge(Some(clk), wave(t), wave(t + 1))
      then Or(Lowered(s, wave(t), Held(regs, wave(t)), x), wave(t)(regs[x])) else wave(t)(regs[x])
  }

  ghost predicate Follows(wave: Wave, s: Stmt, regs: map<nat, nat>, clk: nat) {
    forall t: nat, x: nat {:trigger RegisterFollows(wave, t, s, x, regs, clk)} :: x in regs && Count(s, x) == 1 ==>
      RegisterFollows(wave, t, s, x, regs, clk)
  }

  /** On the nets of `a`, `b` has exactly those behaviours of `a` in which the registers follow the statement. */
  ghost predicate Registered(a: NL, b: NL, s: Stmt, regs: map<nat, nat>, clk: nat) {
    && a.nets <= b.nets
    && (forall wave: Wave :: Shows(b, wave) ==> Shows(a, wave) && Follows(wave, s, regs, clk))
    && (forall wave: Wave :: Shows(a, wave) && Follows(wave, s, regs, clk) ==> ShowsBelow(b, a.nets, wave))
  }

  /** What a statement leaves behind depends on the old nets only. */
  lemma {:induction false} SameLowered(s: Stmt, regs: map<nat, nat>, nets: nat, v: Valuation, w: Valuation,
                                       h: nat -> bool, x: nat)
    requires StmtOk(s, regs, nets) && AgreeBelow(nets, v, w)
    ensures Lowered(s, v, h, x) == Lowered(s, w, h, x)
    decreases s, 1
  {
    if s.Assign? {
      SameTargets(s.targets, nets, v, w, x);
    } else if s.Block? {
      SameBody(s.body, regs, nets, v, w, h, x);
    } else {
      SameSelects(s, regs, nets, v, w);
      SameMuxInputs(s, regs, nets, v, w, h, x);
    }
  }

  lemma {:induction false} SameMuxInputs(s: Stmt, regs: map<nat, nat>, nets: nat, v: Valuation, w: Valuation,
                                         h: nat -> bool, x: nat)
    requires IsChoice(s) && StmtOk(s, regs, nets) && AgreeBelow(nets, v, w)
    ensures forall j {:trigger MuxInput(s, v, h, x, j)} {:trigger MuxInput(s, w, h, x, j)} :: 0 <= j < Arity(s) ==>
      MuxInput(s, v, h, x, j) == MuxInput(s, w, h, x, j)
    decreases s, 0
  {
    forall j {:trigger MuxInput(s, v, h, x, j)} | 0 <= j < Arity(s)
      ensures MuxInput(s, v, h, x, j) == MuxInput(s, w, h, x, j)
    {
      SameLowered(Branch(s, j), regs, nets, v, w, h, x);
    }
  }

  lemma {:induction false} SameTargets(targets: seq<Target>, nets: nat, v: Valuation, w: Valuation, x: nat)
    requires forall i {:trigger targets[i]} :: 0 <= i < |targets| ==> targets[i].net < nets
    requires AgreeBelow(nets, v, w)
    ensures LoweredTargets(targets, v, x) == LoweredTargets(targets, w, x)
  {
    if targets != [] { SameTargets(targets[1..], nets, v, w, x); }
  }

  lemma {:induction false} SameBody(body: seq<Stmt>, regs: map<nat, nat>, nets: nat, v: Valuation, w: Valuation,
                                    h: nat -> bool, x: nat)
    requires forall i {:trigger body[i]} :: 0 <= i < |body| ==> StmtOk(body[i], regs, nets)
    requires AgreeBelow(nets, v, w)
    ensures LoweredBody(body, v, h, x) == LoweredBody(body, w, h, x)
    decreases body, 1
  {
    if body != [] {
      SameLowered(body[0], regs, nets, v, w, h, x);
      SameBody(body[1..], regs, nets, v, w, h, x);
    }
  }

  lemma {:induction false} SameSelects(s: Stmt, regs: map<nat, nat>, nets: nat, v: Valuation, w: Valuation)
    requires IsChoice(s) && StmtOk(s, regs, nets) && AgreeBelow(nets, v, w)
    ensures forall j {:trigger Select(s, v, j)} {:trigger Select(s, w, j)} :: 0 <= j < Arity(s) ==>
      Select(s, v, j) == Select(s, w, j)
  {
    if s.If? {
      assert Values(s.cond, v) == Values(s.cond, w);
    } else {
      assert Values(s.subject, v) == Values(s.subject, w);
      forall i {:trigger s.items[i]} | 0 <= i < |s.items|
        ensures Matches(s.subject, s.items[i].key, v) == Matches(s.subject, s.items[i].key, w)
      {
        assert Values(s.items[i].key, v) == Values(s.items[i].key, w);
      }
    }
  }

  /** A flip-flop of the block steps exactly when its register follows. */
  lemma {:induction false} StepFollows(wave: Wave, t: nat, s: Stmt, x: nat, scope: Scope, clk: nat, d: nat)
    requires scope.sequential && x in scope.regs && Count(s, x) == 1
    requires Lowered(s, wave(t), HeldValue(scope, wave(t)), x) == Some(wave(t)(d))
    ensures FlipFlopStep(RegisterCell(d, clk, scope.regs[x]), wave(t), wave(t + 1))
      <==> RegisterFollows(wave, t, s, x, scope.regs, clk)
  {
    var v, h := wave(t), HeldValue(scope, wave(t));
    assert scope.Implied(x) == scope.regs[x] && Scope(scope.regs, true, 0).Implied(x) == scope.regs[x];
    assert h(x) == v(scope.regs[x]) && Held(scope.regs, v)(x) == v(scope.regs[x]);
    SameHeld(s, v, h, Held(scope.regs, v), x);
    assert RegisterCell(d, clk, scope.regs[x]).outs[0].Some?;
  }

  /** A run of the result is a run of the old netlist, and its registers follow. */
  lemma {:induction false} ResultFollows(a: NL, mid: NL, b: NL, p0: nat, pins: seq<Pin>, list: seq<Sig>, s: Stmt,
                                         scope: Scope, clk: nat, wave: Wave, store: Store)
    requires LoweredTo(a, mid, p0, pins, list, s, scope) && scope.sequential && b == mid.(cells := b.cells)
    requires b.cells == mid.cells + RegisterCells(list, NetFn(pins), scope.regs, clk) && Run(b, wave, store)
    ensures Run(a, wave, store) && Follows(wave, s, scope.regs, clk)
  {
    FirstCellsRun(mid, b, wave, store);
    LoweredRun(a, mid, wave, store);
    forall t: nat, x: nat {:trigger RegisterFollows(wave, t, s, x, scope.regs, clk)} |
      x in scope.regs && Count(s, x) == 1
      ensures RegisterFollows(wave, t, s, x, scope.regs, clk)
    {
      assert Consistent(b, wave(t));
      var k, d := RegisterData(a, mid, b, p0, pins, list, s, scope, clk, wave(t), x);
      assert CellStep(b.cells[k], wave(t), wave(t + 1), store(t, k), store(t + 1, k));
      StepFollows(wave, t, s, x, scope, clk, d);
    }
  }

  lemma {:induction false} FirstCellsRun(mid: NL, b: NL, wave: Wave, store: Store)
    requires b == mid.(cells := b.cells) && mid.cells <= b.cells && Run(b, wave, store)
    ensures Run(mid, wave, store)
  {
    forall t: nat ensures Consistent(mid, wave(t)) {
      assert Consistent(b, wave(t));
      forall k | 0 <= k < |mid.cells| ensures Holds(mid.cells[k], wave(t)) { assert b.cells[k] == mid.cells[k]; }
    }
    forall t: nat, k: nat | k < |mid.cells|
      ensures CellStep(mid.cells[k], wave(t), wave(t + 1), store(t, k), store(t + 1, k))
    {
      assert b.cells[k] == mid.cells[k];
      assert CellStep(b.cells[k], wave(t), wave(t + 1), store(t, k), store(t + 1, k));
    }
  }

  /** The lowered value seen through an extension of the old values. */
  lemma {:induction false} SameFollows(s: Stmt, regs: map<nat, nat>, clk: nat, nets: nat, wave: Wave, w: Wave, t: nat,
                                       x: nat)
    requires StmtOk(s, regs, nets) && x in regs && regs[x] < nets && clk < nets && Count(s, x) == 1
    requires WavesAgree(nets, wave, w)
    ensures RegisterFollows(wave, t, s, x, regs, clk) == RegisterFollows(w, t, s, x, regs, clk)
  {
    assert AgreeBelow(nets, wave(t), w(t)) && AgreeBelow(nets, wave(t + 1), w(t + 1));
    SameLowered(s, regs, nets, wave(t), w(t), Held(regs, wave(t)), x);
    assert Scope(regs, true, 0).Implied(x) == regs[x];
    SameHeld(s, w(t), Held(regs, wave(t)), Held(regs, w(t)), x);
  }

  /** Conversely, the flip-flops join every run of the netlist in between whose registers follow. */
  lemma {:induction false} RegistersJoin(a: NL, mid: NL, b: NL, p0: nat, pins: seq<Pin>, list: seq<Sig>, s: Stmt,
                                         scope: Scope, clk: nat, wave: Wave, w: Wave, store: Store)
    requires LoweredTo(a, mid, p0, pins, list, s, scope) && scope.sequential && b == mid.(cells := b.cells)
    requires b.cells == mid.cells + RegisterCells(list, NetFn(pins), scope.regs, clk)
    requires StmtOk(s, scope.regs, a.nets) && clk < a.nets
    requires (forall x {:trigger scope.regs[x]} :: x in scope.regs ==> scope.regs[x] < a.nets)
    requires (forall x :: Count(s, x) <= 1) && Follows(wave, s, scope.regs, clk)
    requires Run(mid, w, store) && WavesAgree(a.nets, wave, w)
    ensures Run(b, w, store)
  {
    hide Consistent, CellStep, Follows, StmtOk, LoweredTo, WavesAgree;
    forall t: nat ensures Consistent(b, w(t)) {
      assert Consistent(mid, w(t));
      NamesInScope(a, mid, p0, pins, list, s, scope);
      RegistersHold(mid, b, list, pins, scope, clk, w(t));
    }
    forall t: nat, k: nat | k < |b.cells|
      ensures CellStep(b.cells[k], w(t), w(t + 1), store(t, k), store(t + 1, k))
    {
      if k < |mid.cells| {
        assert b.cells[k] == mid.cells[k];
        assert CellStep(mid.cells[k], w(t), w(t + 1), store(t, k), store(t + 1, k));
      } else {
        assert Consistent(b, w(t));
        RegisterCellSteps(a, mid, b, p0, pins, list, s, scope, clk, wave, w, t, k - |mid.cells|, store(t, k),
                          store(t + 1, k));
      }
    }
  }

  lemma {:induction false} NamesInScope(a: NL, mid: NL, p0: nat, pins: seq<Pin>, list: seq<Sig>, s: Stmt, scope: Scope)
    requires LoweredTo(a, mid, p0, pins, list, s, scope)
    ensures InScope(list, scope.regs)
  {
  }

  lemma {:induction false} RegistersHold(mid: NL, b: NL, list: seq<Sig>, pins: seq<Pin>, scope: Scope, clk: nat,
                                         v: Valuation)
    requires InScope(list, scope.regs) && b == mid.(cells := b.cells) && Consistent(mid, v)
    requires b.cells == mid.cells + RegisterCells(list, NetFn(pins), scope.regs, clk)
    ensures Consistent(b, v)
  {
    forall k | 0 <= k < |b.cells| ensures Holds(b.cells[k], v) {
      if k < |mid.cells| { assert b.cells[k] == mid.cells[k]; }
      else { assert b.cells[k] == RegisterCells(list, NetFn(pins), scope.regs, clk)[k - |mid.cells|]; }
    }
  }

  lemma {:induction false} RegisterCellSteps(a: NL, mid: NL, b: NL, p0: nat, pins: seq<Pin>, list: seq<Sig>, s: Stmt,
                                             scope: Scope, clk: nat, wave: Wave, w: Wave, t: nat, i: nat, m: Mem,
                                             m': Mem)
    requires LoweredTo(a, mid, p0, pins, list, s, scope) && scope.sequential && i < |list|
    requires b.cells == mid.cells + RegisterCells(list, NetFn(pins), scope.regs, clk)
    requires StmtOk(s, scope.regs, a.nets) && clk < a.nets && Consistent(b, w(t)) && WavesAgree(a.nets, wave, w)
    requires (forall x {:trigger scope.regs[x]} :: x in scope.regs ==> scope.regs[x] < a.nets)
    requires (forall x :: Count(s, x) <= 1) && Follows(wave, s, scope.regs, clk)
    ensures |b.cells| == |mid.cells| + |list|
    ensures CellStep(b.cells[|mid.cells| + i], w(t), w(t + 1), m, m')
  {
    var x, d := list[i].name, NetOf(pins, list[i].pin);
    CountPositive(list, x);
    assert CountIn(list, x) == Count(s, x);
    assert HoldFrom(mid.cells, |a.cells|, w(t)) by {
      forall k {:trigger mid.cells[k]} | |a.cells| <= k < |mid.cells|
        ensures Holds(mid.cells[k], w(t)) { assert b.cells[k] == mid.cells[k]; }
    }
    assert Carries(pins, list, s, scope, w(t));
    assert RegisterFollows(wave, t, s, x, scope.regs, clk);
    SameFollows(s, scope.regs, clk, a.nets, wave, w, t, x);
    StepFollows(w, t, s, x, scope, clk, d);
    assert b.cells[|mid.cells| + i] == RegisterCells(list, NetFn(pins), scope.regs, clk)[i];
  }

  lemma {:induction false} BlockRegistered(a: NL, mid: NL, b: NL, p0: nat, pins: seq<Pin>, list: seq<Sig>, s: Stmt,
                                           scope: Scope, clk: nat)
    requires LoweredTo(a, mid, p0, pins, list, s, scope) && scope.sequential && b == mid.(cells := b.cells)
    requires b.cells == mid.cells + RegisterCells(list, NetFn(pins), scope.regs, clk)
    requires WellFormed(a) && Lowers(a, mid) && StmtOk(s, scope.regs, a.nets) && clk < a.nets
    requires (forall x {:trigger scope.regs[x]} :: x in scope.regs ==> scope.regs[x] < a.nets)
    requires forall x :: Count(s, x) <= 1
    ensures Registered(a, b, s, scope.regs, clk)
  {
    hide Run, Follows, StmtOk, LoweredTo, Lowers;
    LoweringKeepsRuns(a, mid);
    forall wave: Wave | Shows(b, wave) ensures Shows(a, wave) && Follows(wave, s, scope.regs, clk) {
      var store :| Run(b, wave, store);
      ResultFollows(a, mid, b, p0, pins, list, s, scope, clk, wave, store);
    }
    forall wave: Wave | Shows(a, wave) && Follows(wave, s, scope.regs, clk) ensures ShowsBelow(b, a.nets, wave) {
      assert ShowsBelow(mid, a.nets, wave);
      var w: Wave :| WavesAgree(a.nets, wave, w) && Shows(mid, w);
      var store :| Run(mid, w, store);
      RegistersJoin(a, mid, b, p0, pins, list, s, scope, clk, wave, w, store);
      assert Shows(b, w);
    }
  }

  /** A clocked always block: lowering, then the registers. `mid` is the netlist in between. In every run the registers
      do what the statement says as far as the muxes do; and no behaviour is lost: on the old nets the runs of the
      result are exactly the old ones in which the registers follow the statement. */
  method LowerAlways(g: Netlist, s: Stmt, regs: map<nat, nat>, clk: nat) returns (ok: bool, ghost mid: NL,
                     ghost data: seq<Cell>)
    requires g.Ready() && WellFormed(g.Meaning()) && StmtOk(s, regs, |g.nets|) && clk < |g.nets|
    requires RegistersApart(regs) && DrivenUpTo(g.nets, regs, [], 0)
    modifies g
    ensures g.Ready() && (old(g.tidy) ==> g.tidy)
    ensures ok <==> forall x :: Count(s, x) <= 1
    ensures ok ==> Lowers(old(g.Meaning()), mid) && g.cells == mid.cells + data && Clocked(g.Meaning(), s, regs, clk)
    ensures ok ==> Registered(old(g.Meaning()), g.Meaning(), s, regs, clk)
  {
    ghost var a := g.Meaning();
    var scope := Scope(regs, true, g.zeroNet);
    assert forall x {:trigger regs[x]} :: x in regs ==> regs[x] < |g.nets|;
    ghost var nets0 := g.nets;
    var list := LowerStmt(g, s, scope);
    mid := g.Meaning();
    ghost var pins := g.pins;
    OnceIff(list, s);
    StillUndriven(nets0, g.nets, regs);
    ListFree(pins, list, |old(g.pins)|);
    data := RegisterCells(list, NetFn(pins), regs, clk);
    ok := TerminateRegistered(g, list, regs, clk, NetFn(pins));
    if ok {
      AlwaysClocked(a, mid, g.Meaning(), |old(g.pins)|, pins, list, s, scope, clk);
      BlockRegistered(a, mid, g.Meaning(), |old(g.pins)|, pins, list, s, scope, clk);
    }
  }

  lemma {:induction false} StillUndriven(before: seq<Net>, after: seq<Net>, regs: map<nat, nat>)
    requires DrivenUpTo(before, regs, [], 0) && |before| <= |after|
    requires forall e {:trigger before[e]} :: 0 <= e < |before| ==> after[e].driver == before[e].driver
    ensures DrivenUpTo(after, regs, [], 0)
  {
  }

  lemma {:induction false} ListFree(pins: seq<Pin>, list: seq<Sig>, p0: nat)
    requires Loose(pins, list, p0)
    ensures forall i {:trigger list[i]} :: 0 <= i < |list| ==> FreeIn(pins, list[i].pin, Some(NetFn(pins)(list[i].pin)))
  {
    forall i {:trigger list[i]} | 0 <= i < |list| ensures FreeIn(pins, list[i].pin, Some(NetFn(pins)(list[i].pin))) {
      assert Dangling(pins, list[i].pin);
    }
  }
}
