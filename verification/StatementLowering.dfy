/** Lowering of statements: assignments, blocks, if and case become pins of one-hot muxes. */
module StatementLowering {
  import opened Wrappers
  import opened Bits
  import opened Semantics
  import opened Runs
  import opened Netlists
  import opened RippleCells
  import opened Growth
  import opened Gates
  import opened Statements
  import opened Merging
  import opened MuxStatements
  import opened Controls
  import opened StatementLists

  /** All nets exist, all targets are registers, all items are as wide as the subject. */
  ghost predicate StmtOk(s: Stmt, regs: map<nat, nat>, nets: nat)
    decreases s
  {
    match s
    case Assign(targets) => forall i {:trigger targets[i]} :: 0 <= i < |targets| ==>
      targets[i].name in regs && targets[i].net < nets
    case Block(body) => forall i {:trigger body[i]} :: 0 <= i < |body| ==> StmtOk(body[i], regs, nets)
    case If(cond, _, _) => NetsBelow(cond, nets) && forall j :: 0 <= j < Arity(s) ==> StmtOk(Branch(s, j), regs, nets)
    case Case(subject, items, _) =>
      && CaseNets(s, nets) && (forall i {:trigger items[i]} :: 0 <= i < |items| ==> |items[i].key| == |subject|)
      && forall j :: 0 <= j < Arity(s) ==> StmtOk(Branch(s, j), regs, nets)
  }

  lemma {:induction false} StmtOkMore(s: Stmt, regs: map<nat, nat>, nets: nat, nets': nat)
    requires StmtOk(s, regs, nets) && nets <= nets'
    ensures StmtOk(s, regs, nets')
    decreases s
  {
    match s
    case Assign(_) =>
    case Block(body) =>
      forall i {:trigger body[i]} | 0 <= i < |body| ensures StmtOk(body[i], regs, nets') {
        StmtOkMore(body[i], regs, nets, nets');
      }
    case _ =>
      forall j | 0 <= j < Arity(s) ensures StmtOk(Branch(s, j), regs, nets') {
        StmtOkMore(Branch(s, j), regs, nets, nets');
      }
  }

  ghost predicate ScopeOk(scope: Scope, g: Netlist)
    reads g
  {
    scope.zero == g.zeroNet && forall m :: m in scope.regs ==> scope.regs[m] < |g.nets|
  }

  /** The cells added since `a` make the pins of the list carry the lowered values of `s`. */
  ghost predicate CarriedBy(cells: seq<Cell>, c0: nat, pins: seq<Pin>, list: seq<Sig>, s: Stmt, scope: Scope) {
    forall v: Valuation {:trigger HoldFrom(cells, c0, v)} :: HoldFrom(cells, c0, v) ==> Carries(pins, list, s, scope, v)
  }

  /** The result of lowering `s`: more cells, no change of behaviour, and a list of its names. */
  ghost predicate LoweredTo(a: NL, b: NL, p0: nat, pins: seq<Pin>, list: seq<Sig>, s: Stmt, scope: Scope) {
    && Grown(a, b, |a.cells|) && Loose(pins, list, p0) && InScope(list, scope.regs) && Counted(list, s)
    && CarriedBy(b.cells, |a.cells|, pins, list, s, scope)
  }

  // ----- assignments -----

  function Nets(targets: seq<Target>): (r: seq<nat>)
    ensures |r| == |targets|
    ensures forall i {:trigger r[i]} :: 0 <= i < |r| ==> r[i] == targets[i].net
  {
    seq(|targets|, (i: nat) requires i < |targets| => targets[i].net)
  }

  function Sigs(targets: seq<Target>, pins: seq<nat>): (r: seq<Sig>)
    requires |targets| == |pins|
    ensures |r| == |targets|
    ensures forall i {:trigger r[i]} :: 0 <= i < |r| ==> r[i] == Sig(targets[i].name, pins[i])
  {
    seq(|targets|, (i: nat) requires i < |targets| => Sig(targets[i].name, pins[i]))
  }

  lemma {:induction false} SigsCount(targets: seq<Target>, pins: seq<nat>, x: nat)
    requires |targets| == |pins|
    ensures CountIn(Sigs(targets, pins), x) == CountTargets(targets, x)
  {
    if targets != [] {
      SigsCount(targets[1..], pins[1..], x);
      assert Sigs(targets, pins)[1..] == Sigs(targets[1..], pins[1..]);
    }
  }

  lemma {:induction false} TargetValue(targets: seq<Target>, v: Valuation, i: nat)
    requires i < |targets| && CountTargets(targets, targets[i].name) == 1
    ensures LoweredTargets(targets, v, targets[i].name) == Some(v(targets[i].net))
  {
    if i > 0 {
      TargetCounted(targets[1..], i - 1);
      TargetValue(targets[1..], v, i - 1);
    }
  }

  lemma {:induction false} TargetCounted(targets: seq<Target>, i: nat)
    requires i < |targets|
    ensures CountTargets(targets, targets[i].name) >= 1
  {
    if i > 0 { TargetCounted(targets[1..], i - 1); }
  }

  method LowerAssign(g: Netlist, s: Stmt, scope: Scope) returns (list: seq<Sig>)
    requires g.Ready() && WellFormed(g.Meaning()) && s.Assign? && StmtOk(s, scope.regs, |g.nets|) && ScopeOk(scope, g)
    modifies g
    ensures g.KeepsDrivers(old(g.nets))
    ensures g.Ready() && (old(g.tidy) ==> g.tidy) && g.KeepsFree(old(g.pins)) && ScopeOk(scope, g)
    ensures |old(g.nets)| <= |g.nets|
    ensures LoweredTo(old(g.Meaning()), g.Meaning(), |old(g.pins)|, g.pins, list, s, scope)
  {
    ghost var a := g.Meaning();
    assert forall i {:trigger Nets(s.targets)[i]} :: 0 <= i < |s.targets| ==> s.targets[i].net < |g.nets|;
    var pins := FreshPins(g, Nets(s.targets));
    list := Sigs(s.targets, pins);
    GrownReflexive(a, |a.cells|);
    AssignCarries(s, g.pins, pins, list, scope, |old(g.pins)|);
  }

  lemma {:induction false} AssignCarries(s: Stmt, table: seq<Pin>, pins: seq<nat>, list: seq<Sig>, scope: Scope,
                                         p0: nat)
    requires s.Assign? && |pins| == |s.targets| && list == Sigs(s.targets, pins) && Distinct(pins)
    requires AllAtLeast(pins, p0)
    requires forall i :: 0 <= i < |pins| ==> FreeIn(table, pins[i], Some(s.targets[i].net))
    requires forall i {:trigger s.targets[i]} :: 0 <= i < |s.targets| ==> s.targets[i].name in scope.regs
    ensures Loose(table, list, p0) && InScope(list, scope.regs) && Counted(list, s)
    ensures forall v: Valuation :: Carries(table, list, s, scope, v)
  {
    forall x {:trigger CountIn(list, x)} ensures CountIn(list, x) == Count(s, x) { SigsCount(s.targets, pins, x); }
    forall v: Valuation ensures Carries(table, list, s, scope, v) {
      forall i {:trigger list[i]} | 0 <= i < |list| && Count(s, list[i].name) == 1
        ensures Lowered(s, v, HeldValue(scope, v), list[i].name) == Some(v(NetOf(table, list[i].pin)))
      {
        TargetValue(s.targets, v, i);
      }
    }
  }

  // ----- earlier lists while later cells and pins appear -----

  lemma {:induction false} StillLoose(pins: seq<Pin>, pins': seq<Pin>, list: seq<Sig>, p0: nat, s: Stmt, scope: Scope,
                                      v: Valuation)
    requires Loose(pins, list, p0) && |pins| <= |pins'|
    requires forall p {:trigger pins[p]} :: 0 <= p < |pins| && pins[p].node == None ==> pins'[p] == pins[p]
    ensures Loose(pins', list, p0)
    ensures Carries(pins, list, s, scope, v) ==> Carries(pins', list, s, scope, v)
  {
    forall i {:trigger list[i]} | 0 <= i < |list|
      ensures pins'[list[i].pin] == pins[list[i].pin] && list[i].pin < |pins| {
      assert Dangling(pins, list[i].pin);
    }
  }

  /** A list carried by a stretch of cells is carried by every longer one. */
  lemma {:induction false} StillCarried(b: seq<Cell>, c: seq<Cell>, c0: nat, lo: nat, pins: seq<Pin>, pins': seq<Pin>,
                                        list: seq<Sig>, p0: nat, s: Stmt, scope: Scope)
    requires CarriedBy(b, lo, pins, list, s, scope) && Loose(pins, list, p0) && c0 <= lo <= |b| <= |c|
    requires |pins| <= |pins'|
    requires forall k {:trigger b[k]} :: c0 <= k < |b| ==> c[k] == b[k]
    requires forall p {:trigger pins[p]} :: 0 <= p < |pins| && pins[p].node == None ==> pins'[p] == pins[p]
    ensures CarriedBy(c, c0, pins', list, s, scope) && Loose(pins', list, p0)
  {
    forall v: Valuation {:trigger HoldFrom(c, c0, v)} | HoldFrom(c, c0, v) ensures Carries(pins', list, s, scope, v) {
      HoldsEarlier(b, c, c0, v);
      assert HoldFrom(b, lo, v);
      StillLoose(pins, pins', list, p0, s, scope, v);
    }
    StillLoose(pins, pins', list, p0, s, scope, e => false);
  }

  // ----- blocks -----

  lemma {:induction false} BodyAppend(body: seq<Stmt>, s: Stmt, v: Valuation, h: nat -> bool, x: nat)
    ensures CountBody(body + [s], x) == CountBody(body, x) + Count(s, x)
    ensures LoweredBody(body + [s], v, h, x) == if LoweredBody(body, v, h, x).Some? then LoweredBody(body, v, h, x)
      else Lowered(s, v, h, x)
  {
    if body == [] {
      assert [] + [s] == [s] && [s][1..] == [];
    } else {
      BodyAppend(body[1..], s, v, h, x);
      assert (body + [s])[1..] == body[1..] + [s];
    }
  }

  lemma {:induction false} ListedCounts(l: seq<Sig>, s: Stmt, i: nat)
    requires Counted(l, s) && i < |l|
    ensures Count(s, l[i].name) >= 1
  {
    CountPositive(l, l[i].name);
    assert CountIn(l, l[i].name) == Count(s, l[i].name);
  }

  /** Two lists one behind the other are the list of the block. */
  lemma {:induction false} BlockCarries(pins: seq<Pin>, l1: seq<Sig>, l2: seq<Sig>, body: seq<Stmt>, s: Stmt,
                                        scope: Scope, v: Valuation)
    requires Carries(pins, l1, Block(body), scope, v) && Carries(pins, l2, s, scope, v) && Counted(l1, Block(body))
    requires Counted(l2, s)
    ensures Carries(pins, l1 + l2, Block(body + [s]), scope, v)
  {
    var l, b, h := l1 + l2, Block(body + [s]), HeldValue(scope, v);
    forall i {:trigger l[i]} | 0 <= i < |l| && Count(b, l[i].name) == 1
      ensures Lowered(b, v, h, l[i].name) == Some(v(NetOf(pins, l[i].pin)))
    {
      var x := l[i].name;
      BodyAppend(body, s, v, h, x);
      if i < |l1| {
        assert l[i] == l1[i];
        ListedCounts(l1, Block(body), i);
        assert Count(Block(body), x) == 1;
        assert Lowered(Block(body), v, h, x) == Some(v(NetOf(pins, l1[i].pin)));
      } else {
        assert l[i] == l2[i - |l1|];
        ListedCounts(l2, s, i - |l1|);
        UnassignedBody(body, v, h, x);
      }
    }
  }

  lemma {:induction false} BlockLists(pins: seq<Pin>, l1: seq<Sig>, l2: seq<Sig>, body: seq<Stmt>, s: Stmt,
                                      regs: map<nat, nat>, p0: nat, p1: nat)
    requires Loose(pins, l1, p0) && Loose(pins, l2, p1) && p0 <= p1
    requires (forall i {:trigger l1[i]} :: 0 <= i < |l1| ==> l1[i].pin < p1)
    requires InScope(l1, regs) && InScope(l2, regs) && Counted(l1, Block(body)) && Counted(l2, s)
    ensures Loose(pins, l1 + l2, p0) && InScope(l1 + l2, regs) && Counted(l1 + l2, Block(body + [s]))
  {
    forall x {:trigger CountIn(l1 + l2, x)} ensures CountIn(l1 + l2, x) == Count(Block(body + [s]), x) {
      CountConcat(l1, l2, x);
      BodyAppend(body, s, e => false, e => false, x);
      assert CountIn(l1, x) == Count(Block(body), x) && CountIn(l2, x) == Count(s, x);
    }
  }

  /** One more statement of a block. */
  lemma {:induction false} BlockStep(a: NL, b: NL, c: NL, p0: nat, p1: nat, pins1: seq<Pin>, pins: seq<Pin>,
                                     l1: seq<Sig>, l2: seq<Sig>,
                                     body: seq<Stmt>, s: Stmt, scope: Scope)
    requires LoweredTo(a, b, p0, pins1, l1, Block(body), scope) && LoweredTo(b, c, p1, pins, l2, s, scope)
    requires p1 == |pins1| && p0 <= p1 <= |pins|
    requires forall p {:trigger pins1[p]} :: 0 <= p < |pins1| && pins1[p].node == None ==> pins[p] == pins1[p]
    ensures LoweredTo(a, c, p0, pins, l1 + l2, Block(body + [s]), scope)
  {
    var c0 := |a.cells|;
    assert forall i {:trigger l1[i]} :: 0 <= i < |l1| ==> l1[i].pin < p1 by {
      forall i {:trigger l1[i]} | 0 <= i < |l1| ensures l1[i].pin < p1 { assert Dangling(pins1, l1[i].pin); }
    }
    StillCarried(b.cells, c.cells, c0, c0, pins1, pins, l1, p0, Block(body), scope);
    BlockLists(pins, l1, l2, body, s, scope.regs, p0, p1);
    LowersTransitive(a, b, c);
    forall k {:trigger a.cells[k]} {:trigger c.cells[k]} | 0 <= k < c0
      ensures c.cells[k] == a.cells[k] { assert b.cells[k] == a.cells[k]; }
    BlockCarried(b.cells, c.cells, c0, pins, l1, l2, body, s, scope);
  }

  lemma {:induction false} BlockCarried(b: seq<Cell>, c: seq<Cell>, c0: nat, pins: seq<Pin>, l1: seq<Sig>,
                                        l2: seq<Sig>, body: seq<Stmt>, s: Stmt, scope: Scope)
    requires c0 <= |b| <= |c| && CarriedBy(c, c0, pins, l1, Block(body), scope) && CarriedBy(c, |b|, pins, l2, s, scope)
    requires Counted(l1, Block(body)) && Counted(l2, s)
    ensures CarriedBy(c, c0, pins, l1 + l2, Block(body + [s]), scope)
  {
    forall v: Valuation {:trigger HoldFrom(c, c0, v)} | HoldFrom(c, c0, v)
      ensures Carries(pins, l1 + l2, Block(body + [s]), scope, v) {
      assert HoldFrom(c, |b|, v);
      BlockCarries(pins, l1, l2, body, s, scope, v);
    }
  }

  lemma {:induction false} EmptyBlock(a: NL, pins: seq<Pin>, scope: Scope)
    requires WellFormed(a)
    ensures LoweredTo(a, a, |pins|, pins, [], Block([]), scope)
  {
    GrownReflexive(a, |a.cells|);
  }

  method LowerBlock(g: Netlist, s: Stmt, scope: Scope) returns (list: seq<Sig>)
    requires g.Ready() && WellFormed(g.Meaning()) && s.Block? && StmtOk(s, scope.regs, |g.nets|) && ScopeOk(scope, g)
    modifies g
    ensures g.KeepsDrivers(old(g.nets))
    ensures g.Ready() && (old(g.tidy) ==> g.tidy) && g.KeepsFree(old(g.pins)) && ScopeOk(scope, g)
    ensures |old(g.nets)| <= |g.nets|
    ensures LoweredTo(old(g.Meaning()), g.Meaning(), |old(g.pins)|, g.pins, list, s, scope)
    decreases s, 1
  {
    hide Netlist.Valid;
    ghost var a, p0 := g.Meaning(), |g.pins|;
    list := [];
    EmptyBlock(a, g.pins, scope);
    assert s.body[..0] == [];
    for i := 0 to |s.body|
      invariant g.KeepsDrivers(old(g.nets))
      invariant g.Ready() && (old(g.tidy) ==> g.tidy) && g.KeepsFree(old(g.pins)) && ScopeOk(scope, g)
      invariant |old(g.nets)| <= |g.nets|
      invariant LoweredTo(a, g.Meaning(), p0, g.pins, list, Block(s.body[..i]), scope)
    {
      ghost var b, pins1 := g.Meaning(), g.pins;
      assert StmtOk(s.body[i], scope.regs, |old(g.nets)|);
      StmtOkMore(s.body[i], scope.regs, |old(g.nets)|, |g.nets|);
      var more := LowerStmt(g, s.body[i], scope);
      BlockStep(a, b, g.Meaning(), p0, |pins1|, pins1, g.pins, list, more, s.body[..i], s.body[i], scope);
      list := list + more;
      assert s.body[..i + 1] == s.body[..i] + [s.body[i]];
    }
    assert s.body[..|s.body|] == s.body;
  }

  // ----- the whole statement -----

  method LowerStmt(g: Netlist, s: Stmt, scope: Scope) returns (list: seq<Sig>)
    requires g.Ready() && WellFormed(g.Meaning()) && StmtOk(s, scope.regs, |g.nets|) && ScopeOk(scope, g)
    modifies g
    ensures g.KeepsDrivers(old(g.nets))
    ensures g.Ready() && (old(g.tidy) ==> g.tidy) && g.KeepsFree(old(g.pins)) && ScopeOk(scope, g)
    ensures |old(g.nets)| <= |g.nets|
    ensures LoweredTo(old(g.Meaning()), g.Meaning(), |old(g.pins)|, g.pins, list, s, scope)
    decreases s, 2
  {
    match s
    case Assign(_) => list := LowerAssign(g, s, scope);
    case Block(_) => list := LowerBlock(g, s, scope);
    case _ => list := LowerChoice(g, s, scope);
  }

  // ----- if and case -----

  /** The sorted lists of the branches lowered so far. */
  ghost predicate BranchesDone(cells: seq<Cell>, c0: nat, pins: seq<Pin>, s: Stmt, lists: seq<seq<Sig>>, scope: Scope,
                               p0: nat)
    requires IsChoice(s) && |lists| <= Arity(s)
  {
    && AllSorted(lists) && PinsApart(lists)
    && (forall j {:trigger lists[j]} :: 0 <= j < |lists| ==>
          Counted(lists[j], Branch(s, j)) && Loose(pins, lists[j], p0) && InScope(lists[j], scope.regs)
          && CarriedBy(cells, c0, pins, lists[j], Branch(s, j), scope))
  }

  lemma {:induction false} BranchStep(a: NL, b: NL, c0: nat, pins1: seq<Pin>, pins: seq<Pin>, s: Stmt,
                                      lists: seq<seq<Sig>>, list: seq<Sig>, scope: Scope, p0: nat)
    requires IsChoice(s) && |lists| < Arity(s) && BranchesDone(a.cells, c0, pins1, s, lists, scope, p0)
    requires c0 <= |a.cells|
    requires LoweredTo(a, b, |pins1|, pins, list, Branch(s, |lists|), scope) && p0 <= |pins1| <= |pins|
    requires forall p {:trigger pins1[p]} :: 0 <= p < |pins1| && pins1[p].node == None ==> pins[p] == pins1[p]
    ensures BranchesDone(b.cells, c0, pins, s, lists + [Sort(list)], scope, p0)
  {
    var l, br := Sort(list), Branch(s, |lists|);
    SortKeeps(pins, list, |pins1|, br, scope.regs);
    forall v: Valuation {:trigger HoldFrom(b.cells, c0, v)} | HoldFrom(b.cells, c0, v)
      ensures Carries(pins, l, br, scope, v) {
      assert HoldFrom(b.cells, |a.cells|, v);
      SortCarries(pins, list, br, scope, v);
    }
    forall j {:trigger lists[j]} | 0 <= j < |lists|
      ensures CarriedBy(b.cells, c0, pins, lists[j], Branch(s, j), scope) && Loose(pins, lists[j], p0)
      ensures forall i {:trigger lists[j][i]} :: 0 <= i < |lists[j]| ==> lists[j][i].pin < |pins1|
    {
      StillCarried(a.cells, b.cells, c0, c0, pins1, pins, lists[j], p0, Branch(s, j), scope);
      forall i {:trigger lists[j][i]} | 0 <= i < |lists[j]|
        ensures lists[j][i].pin < |pins1| { assert Dangling(pins1, lists[j][i].pin); }
    }
    ApartMore(lists, l, |pins1|);
  }

  lemma {:induction false} ApartMore(lists: seq<seq<Sig>>, l: seq<Sig>, p1: nat)
    requires PinsApart(lists) && PinsOnce(l) && (forall i {:trigger l[i]} :: 0 <= i < |l| ==> p1 <= l[i].pin)
    requires forall j {:trigger lists[j]} :: 0 <= j < |lists| ==>
      forall i {:trigger lists[j][i]} :: 0 <= i < |lists[j]| ==> lists[j][i].pin < p1
    ensures PinsApart(lists + [l])
  {
    var m: seq<seq<Sig>> := lists + [l];
    forall j: int, i: int, j': int, i': int {:trigger m[j][i], m[j'][i']} |
      0 <= j < |m| && 0 <= i < |m[j]| && 0 <= j' < |m| && 0 <= i' < |m[j']| && m[j][i].pin == m[j'][i'].pin
      ensures j == j' && i == i'
    {
    }
  }

  method LowerBranches(g: Netlist, s: Stmt, scope: Scope, ghost a: NL) returns (lists: seq<seq<Sig>>)
    requires g.Ready() && WellFormed(g.Meaning()) && IsChoice(s) && StmtOk(s, scope.regs, |g.nets|) && ScopeOk(scope, g)
    requires a == g.Meaning()
    modifies g
    ensures g.KeepsDrivers(old(g.nets))
    ensures g.Ready() && (old(g.tidy) ==> g.tidy) && g.KeepsFree(old(g.pins)) && ScopeOk(scope, g)
    ensures |old(g.nets)| <= |g.nets|
    ensures Grown(a, g.Meaning(), |a.cells|) && |lists| == Arity(s)
    ensures BranchesDone(g.cells, |a.cells|, g.pins, s, lists, scope, |old(g.pins)|)
    decreases s, 0
  {
    hide Netlist.Valid;
    lists := [];
    GrownReflexive(a, |a.cells|);
    for j := 0 to Arity(s)
      invariant g.KeepsDrivers(old(g.nets))
      invariant g.Ready() && (old(g.tidy) ==> g.tidy) && g.KeepsFree(old(g.pins)) && ScopeOk(scope, g)
      invariant |old(g.nets)| <= |g.nets|
      invariant Grown(a, g.Meaning(), |a.cells|) && |lists| == j
      invariant BranchesDone(g.cells, |a.cells|, g.pins, s, lists, scope, |old(g.pins)|)
    {
      ghost var b, pins1 := g.Meaning(), g.pins;
      StmtOkMore(Branch(s, j), scope.regs, |old(g.nets)|, |g.nets|);
      var list := LowerStmt(g, Branch(s, j), scope);
      BranchStep(b, g.Meaning(), |a.cells|, pins1, g.pins, s, lists, list, scope, |old(g.pins)|);
      GrownBehind(a, b, g.Meaning());
      lists := lists + [Sort(list)];
    }
  }

  lemma {:induction false} GrownBehind(a: NL, b: NL, c: NL)
    requires Grown(a, b, |a.cells|) && Grown(b, c, |b.cells|)
    ensures Grown(a, c, |a.cells|)
  {
    LowersTransitive(a, b, c);
    forall k {:trigger a.cells[k]} {:trigger c.cells[k]} | 0 <= k < |a.cells|
      ensures c.cells[k] == a.cells[k] { assert b.cells[k] == a.cells[k]; }
  }

  /** The mux node with its selects. */
  method OpenChoice(g: Netlist, s: Stmt) returns (n: nat, ghost ctrl: seq<nat>)
    requires g.Ready() && WellFormed(g.Meaning()) && IsChoice(s)
    requires if s.If? then NetsBelow(s.cond, |g.nets|) else CaseNets(s, |g.nets|)
    modifies g
    ensures g.KeepsDrivers(old(g.nets))
    ensures g.Ready() && (old(g.tidy) ==> g.tidy) && g.KeepsFree(old(g.pins)) && |old(g.nets)| <= |g.nets|
    ensures n == |old(g.cells)| < |g.cells| && Grown(old(g.Meaning()), g.Meaning(), n)
    ensures |ctrl| == Arity(s) && g.cells[n] == Cell(MultiPortMux, Somes(ctrl), [], [Port(Plain, Arity(s))], [])
    ensures NetsBelow(ctrl, |g.nets|)
    ensures forall v: Valuation :: HoldFrom(g.cells, n + 1, v) ==> Selects(s, v, ctrl)
  {
    ghost var a := g.Meaning();
    n := g.AllocateNode(MultiPortMux, [Port(Plain, Arity(s))], Arity(s), [], 0);
    ghost var b, c := g.Meaning(), g.cells[n];
    assert Nones(0) == [] && c.outs == FreshOuts(a.nets, 0);
    AppendLowers(a, b, c);
    if s.If? {
      ctrl := IfControls(g, n, s);
    } else {
      ctrl := CaseControls(g, n, s);
    }
    OpenedGrown(a, b, g.Meaning(), n);
  }

  lemma {:induction false} OpenedGrown(a: NL, b: NL, c: NL, n: nat)
    requires Lowers(a, b) && n == |a.cells| && |b.cells| == n + 1 && b.cells[..n] == a.cells && Grown(b, c, n)
    ensures Grown(a, c, n)
  {
    LowersTransitive(a, b, c);
    forall k {:trigger a.cells[k]} {:trigger c.cells[k]} | 0 <= k < |a.cells| ensures c.cells[k] == a.cells[k] {
      assert a.cells[k] == b.cells[..n][k];
    }
  }

  lemma {:induction false} BranchesOwned(g: Netlist, cells: seq<Cell>, c0: nat, s: Stmt, lists: seq<seq<Sig>>,
                                         scope: Scope, p0: nat)
    requires IsChoice(s) && |lists| == Arity(s) && BranchesDone(cells, c0, g.pins, s, lists, scope, p0)
    requires ScopeOk(scope, g)
    ensures Owned(g, lists, Zeros(|lists|), NetFn(g.pins)) && Named(lists, scope.regs, |g.nets|)
    ensures BranchLists(s, lists)
    ensures forall p: nat :: Listed(lists, p) ==> p >= p0
  {
    forall j, i {:trigger lists[j][i]} | 0 <= j < |lists| && 0 <= i < |lists[j]|
      ensures p0 <= lists[j][i].pin < |g.pins| && lists[j][i].name in scope.regs
      ensures Free(g, lists[j][i].pin, Some(NetFn(g.pins)(lists[j][i].pin)))
    {
      assert Loose(g.pins, lists[j], p0) && InScope(lists[j], scope.regs);
      assert Dangling(g.pins, lists[j][i].pin);
    }
  }

  /** Every net of a grown mux exists. */
  lemma {:induction false} RowsBelow(c: Cell, rows: seq<Row>, net: nat -> nat, scope: Scope, e: nat, nets: nat)
    requires SlotsBelow(c.ins, nets) && (forall p: nat :: net(p) < nets) && (forall m: nat :: scope.Implied(m) < nets)
    ensures SlotsBelow(WithRows(c, rows, net, scope, e).ins, nets)
  {
    if rows != [] {
      RowsBelow(c, rows[..|rows| - 1], net, scope, e, nets);
    }
  }

  lemma {:induction false} PinNets(g: Netlist)
    requires g.Ready()
    ensures forall p: nat :: NetFn(g.pins)(p) < |g.nets|
  {
    forall p: nat ensures NetFn(g.pins)(p) < |g.nets| {
      if p < |g.pins| { assert PinOk(g.pins[p], p, g.nets); }
    }
  }

  lemma {:induction false} MuxDrives(c: Cell, rows: seq<Row>, net: nat -> nat, scope: Scope, e: nat)
    requires c.kind.MultiPortMux? && c.outs == [] && SlotsBelow(c.ins, e) && (forall p: nat :: net(p) < e)
    requires (forall m: nat :: scope.Implied(m) < e)
    ensures Drives(WithRows(c, rows, net, scope, e), e)
  {
    RowsBelow(c, rows, net, scope, e, e);
    assert WithRows(c, rows, net, scope, e).outs == FreshOuts(e, |rows|);
  }

  lemma {:induction false} MostPositive(lists: seq<seq<Sig>>, x: nat)
    requires MostIn(lists, x) > 0
    ensures exists j, i {:trigger lists[j][i]} :: 0 <= j < |lists| && 0 <= i < |lists[j]| && lists[j][i].name == x
  {
    if CountIn(lists[0], x) > 0 {
      CountPositive(lists[0], x);
      var i :| 0 <= i < |lists[0]| && lists[0][i].name == x;
    } else {
      MostPositive(lists[1..], x);
      var j, i :| 0 <= j < |lists[1..]| && 0 <= i < |lists[1..][j]| && lists[1..][j][i].name == x;
      assert lists[j + 1][i].name == x;
    }
  }

  lemma {:induction false} RowsCounted(list: seq<Sig>, rows: seq<Row>, x: nat)
    requires |list| == |rows| && forall r :: 0 <= r < |rows| ==> list[r].name == rows[r].name
    ensures CountIn(list, x) == CountRows(rows, x)
  {
    if rows != [] { RowsCounted(list[1..], rows[1..], x); }
  }

  /** Names and numbers of the outputs handed on. */
  lemma {:induction false} ChoiceListed(pins: seq<Pin>, list: seq<Sig>, s: Stmt, lists: seq<seq<Sig>>, regs: map<nat,
                                        nat>, p0: nat, p1: nat, e: nat)
    requires IsChoice(s) && BranchLists(s, lists) && Handed(pins, list, Rows(lists), p1, e) && p0 <= p1
    requires Named(lists, regs, e)
    ensures Loose(pins, list, p0) && InScope(list, regs) && Counted(list, s)
  {
    forall x {:trigger CountIn(list, x)} ensures CountIn(list, x) == Count(s, x) == MostIn(lists, x) {
      RowsCounted(list, Rows(lists), x);
      RowCount(lists, x);
      ChoiceCounts(s, lists, |lists|, x);
      assert lists[..|lists|] == lists;
    }
    forall i {:trigger list[i]} | 0 <= i < |list| ensures list[i].name in regs {
      CountPositive(list, list[i].name);
      MostPositive(lists, list[i].name);
    }
  }

  lemma {:induction false} ChoiceCarried(b2: seq<Cell>, b3: seq<Cell>, n: nat, pins2: seq<Pin>, pins: seq<Pin>,
                                         list: seq<Sig>, s: Stmt, lists: seq<seq<Sig>>,
                                         scope: Scope, ctrl: seq<nat>, c: Cell, e: nat, p0: nat, p1: nat)
    requires IsChoice(s) && |lists| == Arity(s) && BranchLists(s, lists)
    requires BranchesDone(b2, n + 1, pins2, s, lists, scope, p0)
    requires n < |b2| && b2[n] == c && c == Cell(MultiPortMux, Somes(ctrl), [], [Port(Plain, |ctrl|)], [])
    requires forall v: Valuation :: HoldFrom(b2, n + 1, v) ==> Selects(s, v, ctrl)
    requires b3 == b2[n := WithRows(c, Rows(lists), NetFn(pins2), scope, e)] && Handed(pins, list, Rows(lists), p1, e)
    ensures CarriedBy(b3, n, pins, list, s, scope)
  {
    forall v: Valuation {:trigger HoldFrom(b3, n, v)} | HoldFrom(b3, n, v) ensures Carries(pins, list, s, scope, v) {
      assert HoldFrom(b2, n + 1, v) by {
        forall k {:trigger b2[k]} | n + 1 <= k < |b2| ensures Holds(b2[k], v) { assert b3[k] == b2[k]; }
      }
      assert BranchesCarry(pins2, s, lists, scope, v);
      var m := b3[n];
      forall i {:trigger list[i]} | 0 <= i < |list| && Count(s, list[i].name) == 1
        ensures Lowered(s, v, HeldValue(scope, v), list[i].name) == Some(v(NetOf(pins, list[i].pin)))
      {
        ChoiceRow(pins2, s, lists, scope, v, ctrl, c, m, e, i);
      }
    }
  }

  lemma {:induction false} ChoiceGrown(a: NL, b1: NL, b2: NL, b3: NL, n: nat)
    requires n == |a.cells| < |b1.cells| && Grown(a, b1, n) && Grown(b1, b2, |b1.cells|) && Lowers(b2, b3)
    requires WellFormed(b3)
    requires |b3.cells| == |b2.cells|
    requires forall k {:trigger b3.cells[k]} :: 0 <= k < |b2.cells| && k != n ==> b3.cells[k] == b2.cells[k]
    ensures Grown(a, b3, n)
  {
    LowersTransitive(a, b1, b2);
    LowersTransitive(a, b2, b3);
    forall k {:trigger a.cells[k]} {:trigger b3.cells[k]} | 0 <= k < |a.cells| ensures b3.cells[k] == a.cells[k] {
      assert b1.cells[k] == a.cells[k] && b2.cells[k] == b1.cells[k];
    }
  }

  /** The merge, once the branches are there. */
  method CloseChoice(g: Netlist, n: nat, s: Stmt, lists: seq<seq<Sig>>, scope: Scope, ghost ctrl: seq<nat>,
                     ghost p0: nat) returns (list: seq<Sig>)
    requires g.Ready() && WellFormed(g.Meaning()) && IsChoice(s) && ScopeOk(scope, g) && n < |g.cells|
    requires |lists| == Arity(s) == |ctrl|
    requires g.cells[n] == Cell(MultiPortMux, Somes(ctrl), [], [Port(Plain, |ctrl|)], []) && NetsBelow(ctrl, |g.nets|)
    requires BranchesDone(g.cells, n + 1, g.pins, s, lists, scope, p0) && p0 <= |g.pins|
    requires forall v: Valuation :: HoldFrom(g.cells, n + 1, v) ==> Selects(s, v, ctrl)
    modifies g
    ensures g.KeepsDrivers(old(g.nets))
    ensures g.Ready() && (old(g.tidy) ==> g.tidy) && ScopeOk(scope, g) && |old(g.nets)| <= |g.nets|
    ensures KeptOutside(old(g.pins), g.pins, lists)
    ensures WellFormed(g.Meaning()) && Lowers(old(g.Meaning()), g.Meaning())
    ensures |g.cells| == |old(g.cells)|
    ensures forall k {:trigger g.cells[k]} :: 0 <= k < |g.cells| && k != n ==> g.cells[k] == old(g.cells)[k]
    ensures Loose(g.pins, list, p0) && InScope(list, scope.regs) && Counted(list, s)
    ensures CarriedBy(g.cells, n, g.pins, list, s, scope)
    ensures forall p: nat :: Listed(lists, p) ==> p >= p0
  {
    ghost var b2, pins2, e, c := g.Meaning(), g.pins, |g.nets|, g.cells[n];
    BranchesOwned(g, g.cells, n + 1, s, lists, scope, p0);
    PinNets(g);
    MuxDrives(c, Rows(lists), NetFn(pins2), scope, e);
    list := MergeStatements(g, n, lists, scope, NetFn(pins2));
    GrowLowers(b2, g.Meaning(), n, g.cells[n]);
    ChoiceListed(g.pins, list, s, lists, scope.regs, p0, |pins2|, e);
    ChoiceCarried(b2.cells, g.cells, n, pins2, g.pins, list, s, lists, scope, ctrl, c, e, p0, |pins2|);
  }

  method LowerChoice(g: Netlist, s: Stmt, scope: Scope) returns (list: seq<Sig>)
    requires g.Ready() && WellFormed(g.Meaning()) && IsChoice(s) && StmtOk(s, scope.regs, |g.nets|) && ScopeOk(scope, g)
    modifies g
    ensures g.KeepsDrivers(old(g.nets))
    ensures g.Ready() && (old(g.tidy) ==> g.tidy) && g.KeepsFree(old(g.pins)) && ScopeOk(scope, g)
    ensures |old(g.nets)| <= |g.nets|
    ensures LoweredTo(old(g.Meaning()), g.Meaning(), |old(g.pins)|, g.pins, list, s, scope)
    decreases s, 1
  {
    hide Netlist.Ready;
    ghost var a, pins0 := g.Meaning(), g.pins;
    var n;
    ghost var ctrl;
    n, ctrl := OpenChoice(g, s);
    ghost var b1, pins1 := g.Meaning(), g.pins;
    StmtOkMore(s, scope.regs, a.nets, b1.nets);
    var lists := LowerBranches(g, s, scope, b1);
    ghost var b2, pins2 := g.Meaning(), g.pins;
    BranchesFrom(b1.cells, b2.cells, n, pins2, s, lists, scope, |pins1|, |pins0|, ctrl);
    list := CloseChoice(g, n, s, lists, scope, ctrl, |pins0|);
    ChoiceGrown(a, b1, b2, g.Meaning(), n);
    assert forall p {:trigger pins0[p]} :: 0 <= p < |pins0| && pins0[p].node == None ==> pins2[p] == pins0[p];
  }

  lemma {:induction false} BranchesFrom(b1: seq<Cell>, b2: seq<Cell>, n: nat, pins: seq<Pin>, s: Stmt,
                                        lists: seq<seq<Sig>>, scope: Scope, p1: nat, p0: nat, ctrl: seq<nat>)
    requires IsChoice(s) && |lists| == Arity(s) && n < |b1| <= |b2| && p0 <= p1
    requires BranchesDone(b2, |b1|, pins, s, lists, scope, p1)
    requires forall k {:trigger b2[k]} :: 0 <= k < |b1| ==> b2[k] == b1[k]
    requires forall v: Valuation :: HoldFrom(b1, n + 1, v) ==> Selects(s, v, ctrl)
    ensures BranchesDone(b2, n + 1, pins, s, lists, scope, p0)
    ensures forall v: Valuation :: HoldFrom(b2, n + 1, v) ==> Selects(s, v, ctrl)
  {
    forall v: Valuation {:trigger HoldFrom(b2, n + 1, v)} | HoldFrom(b2, n + 1, v)
      ensures HoldFrom(b1, n + 1, v) && HoldFrom(b2, |b1|, v) {
      HoldsEarlier(b1, b2, n + 1, v);
    }
    forall j {:trigger lists[j]} | 0 <= j < |lists|
      ensures Loose(pins, lists[j], p0) && CarriedBy(b2, n + 1, pins, lists[j], Branch(s, j), scope)
    {
      assert CarriedBy(b2, |b1|, pins, lists[j], Branch(s, j), scope);
    }
  }
}
