/** Assignment statements under if and case: what they mean, what their mux lowering computes, and exactly when the
    two agree. */
module Statements {
  import opened Wrappers
  import opened Bits
  import opened Semantics

  /** A target bit and the net of the expression assigned to it. Names are numbered in strcmp order. */
  datatype Target = Target(name: nat, net: nat)

  datatype Item = Item(key: seq<nat>, body: Stmt)

  /** Expressions are the nets they were expanded to. A missing else is an empty block. */
  datatype Stmt =
    | Assign(targets: seq<Target>)
    | Block(body: seq<Stmt>)
    | If(cond: seq<nat>, yes: Stmt, no: Stmt)
    | Case(subject: seq<nat>, items: seq<Item>, otherwise: Option<Stmt>)

  function Values(nets: seq<nat>, v: Valuation): (r: seq<bool>)
    ensures |r| == |nets|
    ensures forall i {:trigger r[i]} :: 0 <= i < |nets| ==> r[i] == v(nets[i])
  {
    seq(|nets|, (i: nat) requires i < |nets| => v(nets[i]))
  }

  predicate Matches(subject: seq<nat>, key: seq<nat>, v: Valuation) {
    ToNat(Values(subject, v)) == ToNat(Values(key, v))
  }

  predicate IsChoice(s: Stmt) { s.If? || s.Case? }

  /** How many branches a choice has: two for an if, one for each item and the default of a case. */
  function Arity(s: Stmt): nat
    requires IsChoice(s)
  {
    if s.If? then 2 else |s.items| + if s.otherwise.Some? then 1 else 0
  }

  function Branch(s: Stmt, j: nat): (b: Stmt)
    requires IsChoice(s) && j < Arity(s)
    ensures b < s
  {
    if s.If? then (if j == 0 then s.yes else s.no)
    else if j < |s.items| then (assert s.items[j] < s; s.items[j].body)
    else s.otherwise.value
  }

  /** The value of select `j`: the condition and its complement, or the item matches and their NOR. */
  predicate Select(s: Stmt, v: Valuation, j: nat)
    requires IsChoice(s) && j < Arity(s)
  {
    if s.If? then Any(Values(s.cond, v)) == (j == 0)
    else if j < |s.items| then Matches(s.subject, s.items[j].key, v)
    else forall i :: 0 <= i < |s.items| ==> !Matches(s.subject, s.items[i].key, v)
  }

  // ----- how often a name is assigned on one path -----

  function CountTargets(targets: seq<Target>, x: nat): nat {
    if targets == [] then 0 else (if targets[0].name == x then 1 else 0) + CountTargets(targets[1..], x)
  }

  function CountBody(body: seq<Stmt>, x: nat): nat {
    if body == [] then 0 else Count(body[0], x) + CountBody(body[1..], x)
  }

  function Max(a: nat, b: nat): nat { if a < b then b else a }

  function CountBranches(s: Stmt, j: nat, x: nat): nat
    requires IsChoice(s) && j <= Arity(s)
    decreases s, j
  {
    if j == 0 then 0 else Max(CountBranches(s, j - 1, x), Count(Branch(s, j - 1), x))
  }

  /** The most assignments to `x` any path through `s` makes. */
  function Count(s: Stmt, x: nat): nat
    decreases s
  {
    match s
    case Assign(targets) => CountTargets(targets, x)
    case Block(body) => CountBody(body, x)
    case _ => CountBranches(s, Arity(s), x)
  }

  // ----- Verilog's meaning -----

  /** The branch that is executed: the first selected one. */
  function FirstSelected(s: Stmt, v: Valuation, from: nat): (j: nat)
    requires IsChoice(s) && from <= Arity(s)
    ensures from <= j <= Arity(s)
    ensures forall i {:trigger Select(s, v, i)} :: from <= i < j ==> !Select(s, v, i)
    ensures j < Arity(s) ==> Select(s, v, j)
    decreases Arity(s) - from
  {
    if from == Arity(s) || Select(s, v, from) then from else FirstSelected(s, v, from + 1)
  }

  function Executed(s: Stmt, v: Valuation): nat
    requires IsChoice(s)
  {
    FirstSelected(s, v, 0)
  }

  function NextTargets(targets: seq<Target>, v: Valuation, x: nat): Option<bool> {
    if targets == [] then None
    else if NextTargets(targets[1..], v, x).Some? then NextTargets(targets[1..], v, x)
    else if targets[0].name == x then Some(v(targets[0].net)) else None
  }

  function NextBody(body: seq<Stmt>, v: Valuation, x: nat): Option<bool> {
    if body == [] then None
    else if NextBody(body[1..], v, x).Some? then NextBody(body[1..], v, x)
    else Next(body[0], v, x)
  }

  /** The value `s` assigns to `x`, the last assignment on the executed path deciding; None if there is none. */
  function Next(s: Stmt, v: Valuation, x: nat): Option<bool>
    decreases s
  {
    match s
    case Assign(targets) => NextTargets(targets, v, x)
    case Block(body) => NextBody(body, v, x)
    case _ => if Executed(s, v) < Arity(s) then Next(Branch(s, Executed(s, v)), v, x) else None
  }

  // ----- what the muxes compute -----

  function Or(o: Option<bool>, d: bool): bool { if o.Some? then o.value else d }

  function LoweredTargets(targets: seq<Target>, v: Valuation, x: nat): Option<bool> {
    if targets == [] then None
    else if targets[0].name == x then Some(v(targets[0].net)) else LoweredTargets(targets[1..], v, x)
  }

  function LoweredBody(body: seq<Stmt>, v: Valuation, h: nat -> bool, x: nat): Option<bool> {
    if body == [] then None
    else if Lowered(body[0], v, h, x).Some? then Lowered(body[0], v, h, x)
    else LoweredBody(body[1..], v, h, x)
  }

  /** The data the AND-OR mux of a choice sees on input `j`: `h` stands in where the branch assigns nothing. */
  predicate MuxInput(s: Stmt, v: Valuation, h: nat -> bool, x: nat, j: nat)
    requires IsChoice(s) && j < Arity(s)
    decreases s, 0
  {
    Or(Lowered(Branch(s, j), v, h, x), h(x))
  }

  /** The value on the pin `s` leaves behind for `x`. */
  function Lowered(s: Stmt, v: Valuation, h: nat -> bool, x: nat): Option<bool>
    decreases s, 1
  {
    match s
    case Assign(targets) => LoweredTargets(targets, v, x)
    case Block(body) => LoweredBody(body, v, h, x)
    case _ =>
      if Count(s, x) == 0 then None
      else Some(exists j {:trigger Select(s, v, j)} :: 0 <= j < Arity(s) && Select(s, v, j) && MuxInput(s, v, h, x, j))
  }

  // ----- when the two agree -----

  /** Behind the executed branch of a choice, another one is selected too and brings a 1. */
  predicate Drowned(s: Stmt, v: Valuation, h: nat -> bool, x: nat)
    requires IsChoice(s)
  {
    exists j {:trigger Select(s, v, j)} :: Executed(s, v) < j < Arity(s) && Select(s, v, j) && MuxInput(s, v, h, x, j)
  }

  /** What the executed branch brings is what comes out. A choice that mentions `x` and executes nothing brings 0,
      so `h(x)` must be 0. A 1 comes out whoever brings it; a 0 must not be drowned by another matching item. */
  ghost predicate Passes(s: Stmt, v: Valuation, h: nat -> bool, x: nat)
    decreases s
  {
    match s
    case Assign(_) => true
    case Block(body) => forall i :: 0 <= i < |body| ==> Passes(body[i], v, h, x)
    case _ =>
      Count(s, x) == 0 ||
      if Executed(s, v) == Arity(s) then !h(x)
      else if Or(Next(Branch(s, Executed(s, v)), v, x), h(x)) then Passes(Branch(s, Executed(s, v)), v, h, x)
        || Drowned(s, v, h, x)
      else Passes(Branch(s, Executed(s, v)), v, h, x) && !Drowned(s, v, h, x)
  }

  /** On the executed path, no two items of a case that mentions `x` match at once. */
  ghost predicate OneMatch(s: Stmt, v: Valuation, x: nat)
    decreases s
  {
    match s
    case Assign(_) => true
    case Block(body) => forall i :: 0 <= i < |body| ==> OneMatch(body[i], v, x)
    case _ =>
      Count(s, x) == 0
      || ((forall i, j :: 0 <= i < j < Arity(s) ==> !(Select(s, v, i) && Select(s, v, j)))
          && (Executed(s, v) < Arity(s) ==> OneMatch(Branch(s, Executed(s, v)), v, x)))
  }

  /** On the executed path, no case that mentions `x` falls through without a default while `h(x)` is set. */
  ghost predicate Covered(s: Stmt, v: Valuation, h: nat -> bool, x: nat)
    decreases s
  {
    match s
    case Assign(_) => true
    case Block(body) => forall i :: 0 <= i < |body| ==> Covered(body[i], v, h, x)
    case _ =>
      Count(s, x) == 0 || if Executed(s, v) < Arity(s) then Covered(Branch(s, Executed(s, v)), v, h, x) else !h(x)
  }

  /** Every case has a default. */
  ghost predicate Complete(s: Stmt)
    decreases s
  {
    match s
    case Assign(_) => true
    case Block(body) => forall i :: 0 <= i < |body| ==> Complete(body[i])
    case If(_, _, _) => forall j :: 0 <= j < Arity(s) ==> Complete(Branch(s, j))
    case Case(_, _, otherwise) => otherwise.Some? && forall j :: 0 <= j < Arity(s) ==> Complete(Branch(s, j))
  }

  lemma {:induction false} BranchCount(s: Stmt, x: nat, n: nat, j: nat)
    requires IsChoice(s) && j < n <= Arity(s)
    ensures Count(Branch(s, j), x) <= CountBranches(s, n, x)
  {
    if j < n - 1 { BranchCount(s, x, n - 1, j); }
  }

  lemma {:induction false} UnassignedTargets(targets: seq<Target>, v: Valuation, x: nat)
    ensures CountTargets(targets, x) == 0 <==> LoweredTargets(targets, v, x) == None
    ensures CountTargets(targets, x) == 0 ==> NextTargets(targets, v, x) == None
    ensures CountTargets(targets, x) == 1 ==> NextTargets(targets, v, x) == LoweredTargets(targets, v, x)
  {
    if targets != [] { UnassignedTargets(targets[1..], v, x); }
  }

  /** Where `x` is not assigned at all, nothing is lowered and nothing can go wrong. */
  lemma {:induction false} Unassigned(s: Stmt, v: Valuation, h: nat -> bool, x: nat)
    requires Count(s, x) == 0
    ensures Lowered(s, v, h, x) == None && Next(s, v, x) == None && Covered(s, v, h, x) && Passes(s, v, h, x)
    decreases s
  {
    match s
    case Assign(targets) => UnassignedTargets(targets, v, x);
    case Block(body) => UnassignedBody(body, v, h, x);
    case _ =>
      if Executed(s, v) < Arity(s) {
        BranchCount(s, x, Arity(s), Executed(s, v));
        Unassigned(Branch(s, Executed(s, v)), v, h, x);
      }
  }

  lemma {:induction false} UnassignedBody(body: seq<Stmt>, v: Valuation, h: nat -> bool, x: nat)
    requires CountBody(body, x) == 0
    ensures LoweredBody(body, v, h, x) == None && NextBody(body, v, x) == None
    ensures forall i :: 0 <= i < |body| ==> Covered(body[i], v, h, x) && Passes(body[i], v, h, x)
  {
    if body != [] {
      Unassigned(body[0], v, h, x);
      UnassignedBody(body[1..], v, h, x);
      assert forall i :: 1 <= i < |body| ==> body[i] == body[1..][i - 1];
    }
  }

  /** Is the lowered value of `x` its next value, the implied value `h(x)` standing for no assignment? */
  predicate Agrees(s: Stmt, v: Valuation, h: nat -> bool, x: nat) {
    Lowered(s, v, h, x).Some? && Lowered(s, v, h, x).value == Or(Next(s, v, x), h(x))
  }

  /** A name assigned at most once per path, under any nesting of choices whose items may match together, gets its
      next value exactly when what the executed branches bring passes. */
  lemma {:induction false} LoweringExact(s: Stmt, v: Valuation, h: nat -> bool, x: nat)
    requires Count(s, x) == 1
    ensures Lowered(s, v, h, x).Some?
    ensures Agrees(s, v, h, x) <==> Passes(s, v, h, x)
    decreases s
  {
    match s
    case Assign(targets) => UnassignedTargets(targets, v, x);
    case Block(body) => BodyExact(body, v, h, x);
    case _ =>
      var f := Executed(s, v);
      if f < Arity(s) {
        BranchCount(s, x, Arity(s), f);
        if Count(Branch(s, f), x) == 1 { LoweringExact(Branch(s, f), v, h, x); }
          else { Unassigned(Branch(s, f), v, h, x); }
        ChoiceExact(s, v, h, x);
      }
  }

  /** The mux ORs the input of the executed branch and those of the others that are selected. */
  lemma {:induction false} ChoiceExact(s: Stmt, v: Valuation, h: nat -> bool, x: nat)
    requires IsChoice(s) && Executed(s, v) < Arity(s) && Count(s, x) > 0
    ensures Lowered(s, v, h, x) == Some(MuxInput(s, v, h, x, Executed(s, v)) || Drowned(s, v, h, x))
  {
    var f := Executed(s, v);
    assert Select(s, v, f);
    forall j | 0 <= j < Arity(s) && Select(s, v, j) ensures f <= j {
    }
  }

  lemma {:induction false} BodyExact(body: seq<Stmt>, v: Valuation, h: nat -> bool, x: nat)
    requires CountBody(body, x) == 1
    ensures LoweredBody(body, v, h, x).Some?
    ensures LoweredBody(body, v, h, x).value == Or(NextBody(body, v, x), h(x)) <==> forall i :: 0 <= i < |body| ==>
      Passes(body[i], v, h, x)
    decreases body
  {
    assert forall i :: 1 <= i < |body| ==> body[i] == body[1..][i - 1];
    if Count(body[0], x) == 1 {
      LoweringExact(body[0], v, h, x);
      UnassignedBody(body[1..], v, h, x);
    } else {
      Unassigned(body[0], v, h, x);
      BodyExact(body[1..], v, h, x);
    }
  }

  /** Where no two items match together on the executed path, only falling through can do harm. */
  lemma {:induction false} ExclusivePasses(s: Stmt, v: Valuation, h: nat -> bool, x: nat)
    requires OneMatch(s, v, x)
    ensures Passes(s, v, h, x) <==> Covered(s, v, h, x)
    decreases s
  {
    match s
    case Assign(_) =>
    case Block(body) => forall i | 0 <= i < |body| ensures Passes(body[i], v, h, x) <==>
      Covered(body[i], v, h, x) { ExclusivePasses(body[i], v, h, x); }
    case _ =>
      var f := Executed(s, v);
      if Count(s, x) != 0 && f < Arity(s) {
        assert Select(s, v, f);
        ExclusivePasses(Branch(s, f), v, h, x);
      }
  }

  /** With a default in every case nothing falls through. */
  lemma {:induction false} CompleteCovered(s: Stmt, v: Valuation, h: nat -> bool, x: nat)
    requires Complete(s)
    ensures Covered(s, v, h, x)
    decreases s
  {
    match s
    case Assign(_) =>
    case Block(body) =>
      forall i | 0 <= i < |body| ensures Covered(body[i], v, h, x) { CompleteCovered(body[i], v, h, x); }
    case _ =>
      SomethingExecuted(s, v);
      CompleteCovered(Branch(s, Executed(s, v)), v, h, x);
  }

  /** With a default in every case and no two items matching together, every register gets its next value. */
  lemma {:induction false} CompletePasses(s: Stmt, v: Valuation, h: nat -> bool, x: nat)
    requires Count(s, x) == 1 && Complete(s) && OneMatch(s, v, x)
    ensures Agrees(s, v, h, x)
  {
    CompleteCovered(s, v, h, x);
    ExclusivePasses(s, v, h, x);
    LoweringExact(s, v, h, x);
  }

  lemma {:induction false} SomethingExecuted(s: Stmt, v: Valuation)
    requires IsChoice(s) && (s.Case? ==> s.otherwise.Some?)
    ensures Executed(s, v) < Arity(s)
  {
    if s.If? {
      assert Select(s, v, 0) || Select(s, v, 1);
    } else if Executed(s, v) == Arity(s) {
      forall i | 0 <= i < |s.items| ensures !Matches(s.subject, s.items[i].key, v) { assert !Select(s, v, i); }
      assert Select(s, v, |s.items|);
    }
  }

  /** A case that falls through clears the register instead of holding it. */
  lemma {:induction false} FallThroughClears(subject: seq<nat>, key: seq<nat>, x: nat, e: nat, v: Valuation,
                                             h: nat -> bool)
    requires !Matches(subject, key, v) && h(x)
    ensures var s := Case(subject, [Item(key, Assign([Target(x, e)]))], None);
      Count(s, x) == 1 && OneMatch(s, v, x) && Next(s, v, x) == None && Lowered(s, v, h, x) == Some(false)
        && !Agrees(s, v, h, x)
  {
    var s := Case(subject, [Item(key, Assign([Target(x, e)]))], None);
    var a := Branch(s, 0);
    assert a == Assign([Target(x, e)]) && a.targets[1..] == [];
    assert CountTargets(a.targets, x) == 1;
    assert CountBranches(s, 0, x) == 0 && CountBranches(s, 1, x) == 1;
    assert !Select(s, v, 0) && Executed(s, v) == 1;
  }

  /** Two items that match together: a 1 of the second one drowns the 0 of the first. */
  lemma {:induction false} SecondItemDrowns(subject: seq<nat>, key: seq<nat>, x: nat, d: nat, e: nat, v: Valuation,
                                            h: nat -> bool)
    requires Matches(subject, key, v) && !v(d) && v(e)
    ensures var s := Case(subject, [Item(key, Assign([Target(x, d)])), Item(key, Assign([Target(x, e)]))], None);
      Count(s, x) == 1 && Next(s, v, x) == Some(false) && Lowered(s, v, h, x) == Some(true) && !Agrees(s, v, h, x)
  {
    var s := Case(subject, [Item(key, Assign([Target(x, d)])), Item(key, Assign([Target(x, e)]))], None);
    var a, b := Branch(s, 0), Branch(s, 1);
    assert a == Assign([Target(x, d)]) && a.targets[1..] == [] && b == Assign([Target(x, e)]) && b.targets[1..] == [];
    assert CountTargets(a.targets, x) == 1 && CountTargets(b.targets, x) == 1;
    assert CountBranches(s, 0, x) == 0 && CountBranches(s, 1, x) == 1 && CountBranches(s, 2, x) == 1;
    assert Select(s, v, 0) && Select(s, v, 1) && Executed(s, v) == 0;
    assert NextTargets(a.targets, v, x) == Some(false) && LoweredTargets(b.targets, v, x) == Some(true);
    assert MuxInput(s, v, h, x, 1);
  }
}
