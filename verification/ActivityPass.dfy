/** The activity estimation over a levelized netlist: static probabilities in three sweeps, then transition
    densities. */
module ActivityPass {
  import opened Bits
  import opened TruthTables
  import opened ActivityLoops

  /** A node with one output; drivers are node indices. */
  datatype ActNode = Function(table: seq<bool>, ins: seq<nat>) | Register(d: nat) | Output(d: nat) | Input | Ground | Power

  function Values(s: seq<real>, ins: seq<nat>): (r: seq<real>)
    ensures |r| == |ins|
    ensures forall i {:trigger r[i]} :: 0 <= i < |ins| ==> r[i] == if ins[i] < |s| then s[ins[i]] else 0.0
  {
    seq(|ins|, (i: nat) requires i < |ins| => if ins[i] < |s| then s[ins[i]] else 0.0)
  }

  /** The drivers of node `n` are listed: before position `k`, except for the driver of a register. */
  ghost predicate InputsFirst(nodes: seq<ActNode>, order: seq<nat>, n: nat, k: nat)
    requires k <= |order|
  {
    n < |nodes| &&
    match nodes[n]
    case Function(table, ins) => TableOf(table, |ins|) && forall i {:trigger ins[i]} :: 0 <= i < |ins| ==>
      ins[i] in order[..k]
    case Register(d) => d in order
    case Output(d) => d in order[..k]
    case _ => true
  }

  /** The order the levels give: no node twice, drivers first. */
  ghost predicate Ordered(nodes: seq<ActNode>, order: seq<nat>) {
    && (forall k, l {:trigger order[k], order[l]} :: 0 <= k < l < |order| ==> order[k] != order[l])
    && forall k {:trigger order[k]} :: 0 <= k < |order| ==> InputsFirst(nodes, order, order[k], k)
  }

  /** What node `order[k]` holds after a sweep that started from `before`. */
  ghost predicate Settled(nodes: seq<ActNode>, order: seq<nat>, k: nat, s: seq<real>, before: seq<real>,
                          firstSweep: bool)
    requires Ordered(nodes, order) && k < |order| && |s| == |before| == |nodes|
  {
    var n := order[k];
    assert InputsFirst(nodes, order, n, k);
    match nodes[n]
    case Function(table, ins) => s[n] == Prob(table, Values(s, ins))
    case Register(d) => s[n] == if firstSweep then before[n] else if d in order[..k] then s[d] else before[d]
    case Output(d) => s[n] == s[d]
    case _ => s[n] == before[n]
  }

  ghost predicate SweptTo(nodes: seq<ActNode>, order: seq<nat>, k: nat, s: seq<real>, before: seq<real>,
                          firstSweep: bool)
    requires Ordered(nodes, order)
  {
    && |s| == |before| == |nodes| && k <= |order|
    && (forall l :: 0 <= l < k ==> Settled(nodes, order, l, s, before, firstSweep))
    && (forall n {:trigger s[n]} :: 0 <= n < |nodes| && n !in order[..k] ==> s[n] == before[n])
  }

  lemma {:induction false} InRange(nodes: seq<ActNode>, order: seq<nat>)
    requires Ordered(nodes, order)
    ensures forall n {:trigger n in order} :: n in order ==> n < |nodes|
    ensures forall n, k {:trigger n in order[..k]} :: 0 <= k <= |order| && n in order[..k] ==> n in order && n < |nodes|
  {
    forall n, k {:trigger n in order[..k]} | 0 <= k <= |order| && n in order[..k] ensures n in order && n < |nodes| {
      var l :| 0 <= l < k && order[l] == n;
      assert InputsFirst(nodes, order, order[l], l);
    }
    forall n {:trigger n in order} | n in order ensures n < |nodes| {
      var l :| 0 <= l < |order| && order[l] == n;
      assert InputsFirst(nodes, order, order[l], l);
    }
  }

  lemma {:induction false} NotEarlier(nodes: seq<ActNode>, order: seq<nat>, k: nat, l: nat)
    requires Ordered(nodes, order) && l <= k < |order|
    ensures order[k] !in order[..l]
  {
  }

  /** A later write does not unsettle an earlier node. */
  lemma {:induction false} StaysSettled(nodes: seq<ActNode>, order: seq<nat>, k: nat, l: nat, s: seq<real>,
                                        s': seq<real>, before: seq<real>, firstSweep: bool)
    requires Ordered(nodes, order) && l < k < |order| && |s| == |before| == |nodes|
    requires Settled(nodes, order, l, s, before, firstSweep)
    requires |s'| == |s| && forall n {:trigger s'[n]} :: 0 <= n < |s| && n != order[k] ==> s'[n] == s[n]
    ensures Settled(nodes, order, l, s', before, firstSweep)
  {
    var n := order[l];
    assert InputsFirst(nodes, order, n, l);
    NotEarlier(nodes, order, k, l);
    if nodes[n].Function? { assert Values(s', nodes[n].ins) == Values(s, nodes[n].ins); }
  }

  /** One node more. */
  lemma {:induction false} SweepStep(nodes: seq<ActNode>, order: seq<nat>, k: nat, s: seq<real>, s': seq<real>,
                                     before: seq<real>, firstSweep: bool)
    requires Ordered(nodes, order) && k < |order| && SweptTo(nodes, order, k, s, before, firstSweep)
    requires |s'| == |s| && (forall n {:trigger s'[n]} :: 0 <= n < |s| && n != order[k] ==> s'[n] == s[n])
    requires Settled(nodes, order, k, s', before, firstSweep)
    ensures SweptTo(nodes, order, k + 1, s', before, firstSweep)
  {
    forall l | 0 <= l < k + 1 ensures Settled(nodes, order, l, s', before, firstSweep) {
      if l < k { StaysSettled(nodes, order, k, l, s, s', before, firstSweep); }
    }
    assert order[..k + 1] == order[..k] + [order[k]];
  }

  /** A sweep determines the result. */
  lemma {:induction false} SweepUnique(nodes: seq<ActNode>, order: seq<nat>, k: nat, s: seq<real>, s': seq<real>,
                                       before: seq<real>, firstSweep: bool)
    requires Ordered(nodes, order) && k <= |order| && |s| == |s'| == |before| == |nodes|
    requires forall l :: 0 <= l < k ==> Settled(nodes, order, l, s, before, firstSweep)
    requires forall l :: 0 <= l < k ==> Settled(nodes, order, l, s', before, firstSweep)
    ensures forall l {:trigger order[l]} :: 0 <= l < k ==> order[l] < |nodes| && s[order[l]] == s'[order[l]]
  {
    if k > 0 {
      SweepUnique(nodes, order, k - 1, s, s', before, firstSweep);
      var n := order[k - 1];
      assert InputsFirst(nodes, order, n, k - 1);
      InRange(nodes, order);
      forall d {:trigger d in order[..k - 1]} | d in order[..k - 1] ensures d < |nodes| && s[d] == s'[d] {
        var l :| 0 <= l < k - 1 && order[l] == d;
      }
      if nodes[n].Function? { assert Values(s, nodes[n].ins) == Values(s', nodes[n].ins); }
      assert Settled(nodes, order, k - 1, s, before, firstSweep)
        && Settled(nodes, order, k - 1, s', before, firstSweep);
      assert s[n] == s'[n];
    }
  }

  /** A sweep keeps probabilities probabilities. */
  lemma {:induction false} SettledIsProbability(nodes: seq<ActNode>, order: seq<nat>, k: nat, s: seq<real>,
                                                before: seq<real>, firstSweep: bool)
    requires Ordered(nodes, order) && k < |order| && |s| == |before| == |nodes|
    requires Settled(nodes, order, k, s, before, firstSweep)
    requires Probabilities(before)
    requires forall n {:trigger s[n]} :: 0 <= n < |nodes| && n != order[k] ==> Probability(s[n])
    ensures Probabilities(s)
  {
    var n := order[k];
    assert InputsFirst(nodes, order, n, k);
    NotEarlier(nodes, order, k, k);
    InRange(nodes, order);
    if nodes[n].Function? {
      assert Probabilities(Values(s, nodes[n].ins));
      ProbBounded(nodes[n].table, Values(s, nodes[n].ins));
    }
    assert Probability(s[n]);
  }

  lemma {:induction false} AfterNode(nodes: seq<ActNode>, order: seq<nat>, k: nat, s: seq<real>, s': seq<real>,
                                     before: seq<real>, firstSweep: bool)
    requires Ordered(nodes, order) && k < |order| && SweptTo(nodes, order, k, s, before, firstSweep) && Probabilities(s)
    requires Probabilities(before)
    requires |s'| == |s| && (forall n {:trigger s'[n]} :: 0 <= n < |s| && n != order[k] ==> s'[n] == s[n])
    requires Settled(nodes, order, k, s', before, firstSweep)
    ensures SweptTo(nodes, order, k + 1, s', before, firstSweep) && Probabilities(s')
  {
    SweepStep(nodes, order, k, s, s', before, firstSweep);
    SettledIsProbability(nodes, order, k, s', before, firstSweep);
  }

  // ----- densities -----

  /** The density of a function: for every input its density times the probability that flipping it flips the
      function. */
  function Density(f: seq<bool>, p: seq<real>, dens: seq<real>, m: nat): real
    requires TableOf(f, |p|) && |dens| == |p| && m <= |p|
  {
    if m == 0 then 0.0 else Density(f, p, dens, m - 1) + Prob(Sensitive(f, |p|, m - 1), p) * dens[m - 1]
  }

  ghost predicate DensitySettled(nodes: seq<ActNode>, order: seq<nat>, k: nat, s: seq<real>, t: seq<real>,
                                 before: seq<real>)
    requires Ordered(nodes, order) && k < |order| && |s| == |t| == |before| == |nodes|
  {
    var n := order[k];
    assert InputsFirst(nodes, order, n, k);
    InRange(nodes, order);
    match nodes[n]
    case Function(table, ins) => t[n] == Density(table, Values(s, ins), Values(t, ins), |ins|)
    case Register(d) => t[n] == 2.0 * (s[d] * (1.0 - s[d]))
    case Output(d) => t[n] == s[d]
    case _ => t[n] == before[n]
  }

  ghost predicate DensityTo(nodes: seq<ActNode>, order: seq<nat>, k: nat, s: seq<real>, t: seq<real>, before: seq<real>)
    requires Ordered(nodes, order)
  {
    && |s| == |t| == |before| == |nodes| && k <= |order|
    && (forall l :: 0 <= l < k ==> DensitySettled(nodes, order, l, s, t, before))
    && (forall n {:trigger t[n]} :: 0 <= n < |nodes| && n !in order[..k] ==> t[n] == before[n])
  }

  lemma {:induction false} StaysDense(nodes: seq<ActNode>, order: seq<nat>, k: nat, l: nat, s: seq<real>, t: seq<real>,
                                      t': seq<real>, before: seq<real>)
    requires Ordered(nodes, order) && l < k < |order| && |s| == |t| == |before| == |nodes|
    requires DensitySettled(nodes, order, l, s, t, before)
    requires |t'| == |t| && forall n {:trigger t'[n]} :: 0 <= n < |t| && n != order[k] ==> t'[n] == t[n]
    ensures DensitySettled(nodes, order, l, s, t', before)
  {
    var n := order[l];
    assert InputsFirst(nodes, order, n, l);
    NotEarlier(nodes, order, k, l);
    if nodes[n].Function? { assert Values(t', nodes[n].ins) == Values(t, nodes[n].ins); }
  }

  lemma {:induction false} DensityStep(nodes: seq<ActNode>, order: seq<nat>, k: nat, s: seq<real>, t: seq<real>,
                                       t': seq<real>, before: seq<real>)
    requires Ordered(nodes, order) && k < |order| && DensityTo(nodes, order, k, s, t, before)
    requires |t'| == |t| && (forall n {:trigger t'[n]} :: 0 <= n < |t| && n != order[k] ==> t'[n] == t[n])
    requires DensitySettled(nodes, order, k, s, t', before)
    ensures DensityTo(nodes, order, k + 1, s, t', before)
  {
    forall l | 0 <= l < k + 1 ensures DensitySettled(nodes, order, l, s, t', before) {
      if l < k { StaysDense(nodes, order, k, l, s, t, t', before); }
    }
    assert order[..k + 1] == order[..k] + [order[k]];
  }

  /** A density is never negative, and a function's is at most the sum of its inputs'. */
  lemma {:induction false} DensityBounded(f: seq<bool>, p: seq<real>, dens: seq<real>, m: nat)
    requires TableOf(f, |p|) && |dens| == |p| && m <= |p| && Probabilities(p)
    requires forall i :: 0 <= i < |dens| ==> 0.0 <= dens[i]
    ensures 0.0 <= Density(f, p, dens, m) <= DensitySum(dens, m)
  {
    if m > 0 {
      DensityBounded(f, p, dens, m - 1);
      ProbBounded(Sensitive(f, |p|, m - 1), p);
      Contribution(f, p, dens, m, Prob(Sensitive(f, |p|, m - 1), p));
    }
  }

  lemma {:induction false} Contribution(f: seq<bool>, p: seq<real>, dens: seq<real>, m: nat, w: real)
    requires TableOf(f, |p|) && |dens| == |p| && 0 < m <= |p| && 0.0 <= dens[m - 1]
    requires w == Prob(Sensitive(f, |p|, m - 1), p) && Probability(w)
    ensures Density(f, p, dens, m - 1) <= Density(f, p, dens, m) <= Density(f, p, dens, m - 1) + dens[m - 1]
  {
    var y := dens[m - 1];
    var x := Share(w, y);
    assert Density(f, p, dens, m) == Density(f, p, dens, m - 1) + x;
  }

  lemma {:induction false} Share(w: real, y: real) returns (x: real)
    requires Probability(w) && 0.0 <= y
    ensures x == w * y && 0.0 <= x <= y
  {
    x := w * y;
    Scaled(w, y);
  }

  function DensitySum(dens: seq<real>, m: nat): real
    requires m <= |dens|
  {
    if m == 0 then 0.0 else DensitySum(dens, m - 1) + dens[m - 1]
  }

  lemma {:induction false} Scaled(w: real, x: real)
    requires Probability(w) && 0.0 <= x
    ensures 0.0 <= w * x <= x
  {
    NonNegative(w, x);
    NonNegative(1.0 - w, x);
    assert (1.0 - w) * x == x - w * x;
  }

  /** Over a whole netlist: once the sources start out non-negative, every density is. */
  lemma {:induction false} DensitiesNonNegative(nodes: seq<ActNode>, order: seq<nat>, k: nat, s: seq<real>,
                                                t: seq<real>, before: seq<real>)
    requires Ordered(nodes, order) && k <= |order| && DensityTo(nodes, order, |order|, s, t, before) && Probabilities(s)
    requires forall l {:trigger order[l]} :: 0 <= l < |order| ==> SourceStarts(nodes, before, order[l])
    ensures forall n {:trigger n in order[..k]} :: n in order[..k] ==> n < |nodes| && 0.0 <= t[n]
  {
    hide Density, DensitySum, DensitySettled, Ordered, Probabilities;
    if k > 0 {
      DensitiesNonNegative(nodes, order, k - 1, s, t, before);
      assert SourceStarts(nodes, before, order[k - 1]) && DensitySettled(nodes, order, k - 1, s, t, before);
      SettledNonNegative(nodes, order, k - 1, s, t, before);
      assert order[..k] == order[..k - 1] + [order[k - 1]];
    }
  }

  ghost predicate SourceStarts(nodes: seq<ActNode>, before: seq<real>, n: nat) {
    n < |nodes| && n < |before| && (nodes[n].Input? || nodes[n].Ground? || nodes[n].Power? ==> 0.0 <= before[n])
  }

  lemma {:induction false} SettledNonNegative(nodes: seq<ActNode>, order: seq<nat>, k: nat, s: seq<real>, t: seq<real>,
                                              before: seq<real>)
    requires Ordered(nodes, order) && k < |order| && |s| == |t| == |before| == |nodes| && Probabilities(s)
    requires DensitySettled(nodes, order, k, s, t, before) && SourceStarts(nodes, before, order[k])
    requires forall n {:trigger n in order[..k]} :: n in order[..k] ==> n < |nodes| && 0.0 <= t[n]
    ensures order[k] < |nodes| && 0.0 <= t[order[k]]
    ensures nodes[order[k]].Function? ==>
      t[order[k]] <= DensitySum(Values(t, nodes[order[k]].ins), |nodes[order[k]].ins|)
    ensures nodes[order[k]].Register? ==> t[order[k]] <= 0.5
  {
    hide Density, DensitySum;
    var n := order[k];
    assert InputsFirst(nodes, order, n, k);
    InRange(nodes, order);
    match nodes[n]
    case Function(table, ins) =>
      assert Probabilities(Values(s, ins));
      DensityBounded(table, Values(s, ins), Values(t, ins), |ins|);
    case Register(d) => TransitionBounded(s[d]);
    case _ =>
  }

  // ----- one input -----

  lemma {:induction false} OneInput(f: seq<bool>, p: seq<real>)
    requires TableOf(f, 1) && |p| == 1
    ensures Prob(Sensitive(f, 1, 0), p) == if f[0] == f[1] then 0.0 else 1.0
  {
    var g := Sensitive(f, 1, 0);
    assert g[0] == (f[0] != f[Flip(0, 0)]) && g[1] == (f[1] != f[Flip(1, 0)]);
    if f[0] != f[1] {
      assert g == Ones(1);
      OnesHaveAll(p);
    } else {
      NothingOn(g, TermFn(p), |g|);
    }
  }

  lemma {:induction false} NothingOn(g: seq<bool>, wt: nat -> real, m: nat)
    requires m <= |g| && forall i :: 0 <= i < |g| ==> !g[i]
    ensures Total(g, wt, m) == 0.0
  {
    if m > 0 { NothingOn(g, wt, m - 1); }
  }

  lemma {:induction false} OneInputDensity(f: seq<bool>, p: seq<real>, dens: seq<real>)
    requires TableOf(f, 1) && |p| == |dens| == 1
    ensures Density(f, p, dens, 1) == if f[0] == f[1] then 0.0 else dens[0]
  {
    hide Prob;
    OneInput(f, p);
    assert Density(f, p, dens, 1) == Density(f, p, dens, 0) + Prob(Sensitive(f, 1, 0), p) * dens[0];
  }

  // ----- the passes -----

  function Flatten(levels: seq<seq<nat>>): seq<nat> {
    if levels == [] then [] else Flatten(levels[..|levels| - 1]) + levels[|levels| - 1]
  }

  lemma {:induction false} FlattenAt(levels: seq<seq<nat>>, i: nat, j: nat)
    requires i < |levels| && j < |levels[i]|
    ensures |Flatten(levels[..i])| + j < |Flatten(levels)|
    ensures Flatten(levels)[|Flatten(levels[..i])| + j] == levels[i][j]
    ensures |Flatten(levels[..i + 1])| == |Flatten(levels[..i])| + |levels[i]|
  {
    assert levels[..i + 1][..i] == levels[..i];
    var l := |levels| - 1;
    if i < l {
      FlattenAt(levels[..l], i, j);
      assert levels[..l][..i] == levels[..i];
    }
  }

  lemma {:induction false} FlattenNext(levels: seq<seq<nat>>, i: nat)
    requires i < |levels|
    ensures |Flatten(levels[..i + 1])| == |Flatten(levels[..i])| + |levels[i]|
  {
    assert levels[..i + 1][..i] == levels[..i];
  }

  /** The levelized netlist with the activation data of its nodes. */
  class Activities {
    const nodes: seq<ActNode>
    const levels: seq<seq<nat>>
    const staticProbability: array<real>
    const transitionProbability: array<real>
    const transitionDensity: array<real>

    ghost predicate Valid() {
      && Ordered(nodes, Flatten(levels))
      && staticProbability.Length == transitionProbability.Length == transitionDensity.Length == |nodes|
      && staticProbability != transitionProbability && staticProbability != transitionDensity
        && transitionProbability != transitionDensity
    }

    constructor (nodes: seq<ActNode>, levels: seq<seq<nat>>)
      requires Ordered(nodes, Flatten(levels))
      ensures Valid() && this.nodes == nodes && this.levels == levels
      ensures fresh(staticProbability) && fresh(transitionProbability) && fresh(transitionDensity)
      ensures Probabilities(staticProbability[..]) && forall n :: 0 <= n < |nodes| ==> 0.0 <= transitionDensity[n]
    {
      this.nodes, this.levels := nodes, levels;
      staticProbability := new real[|nodes|](_ => 0.0);
      transitionProbability := new real[|nodes|](_ => 0.0);
      transitionDensity := new real[|nodes|](_ => 0.0);
    }

    /** initialize_probabilities without an input file. */
    method Initialize()
      requires Valid() && Probabilities(staticProbability[..])
      requires forall n :: 0 <= n < |nodes| ==> 0.0 <= transitionDensity[n]
      modifies staticProbability, transitionProbability, transitionDensity
      ensures Probabilities(staticProbability[..])
      ensures forall n {:trigger transitionDensity[n]} :: 0 <= n < |nodes| && !nodes[n].Register? ==>
        0.0 <= transitionDensity[n]
      ensures forall k {:trigger Flatten(levels)[k]} :: 0 <= k < |Flatten(levels)| ==> Initial(Flatten(levels)[k])
    {
      ghost var order := Flatten(levels);
      for i := 0 to |levels|
        invariant Probabilities(staticProbability[..])
        invariant forall n {:trigger transitionDensity[n]} :: 0 <= n < |nodes| && !nodes[n].Register? ==>
          0.0 <= transitionDensity[n]
        invariant |Flatten(levels[..i])| <= |order|
        invariant forall k {:trigger order[k]} :: 0 <= k < |Flatten(levels[..i])| ==> Initial(order[k])
      {
        FlattenNext(levels, i);
        for j := 0 to |levels[i]|
          invariant Probabilities(staticProbability[..])
          invariant forall n {:trigger transitionDensity[n]} :: 0 <= n < |nodes| && !nodes[n].Register? ==>
            0.0 <= transitionDensity[n]
          invariant |Flatten(levels[..i])| + j <= |order|
          invariant forall k {:trigger order[k]} :: 0 <= k < |Flatten(levels[..i])| + j ==> Initial(order[k])
        {
          FlattenAt(levels, i, j);
          assert InputsFirst(nodes, order, order[|Flatten(levels[..i])| + j], |Flatten(levels[..i])| + j);
          InitializeNode(levels[i][j]);
        }
      }
      assert levels[..|levels|] == levels;
    }

    ghost predicate Initial(n: nat)
      reads staticProbability, transitionDensity
    {
      n < |nodes| && n < staticProbability.Length && n < transitionDensity.Length &&
      match nodes[n]
      case Input => staticProbability[n] == 0.5 && transitionDensity[n] == 0.5
      case Ground => staticProbability[n] == 0.0 && transitionDensity[n] == 0.0
      case Power => staticProbability[n] == 1.0 && transitionDensity[n] == 0.0
      case Register(d) => staticProbability[n] == 0.5
      case _ => true
    }

    method InitializeNode(n: nat)
      requires Valid() && n < |nodes|
      modifies staticProbability, transitionProbability, transitionDensity
      ensures Initial(n)
      ensures forall m :: 0 <= m < |nodes| && m != n ==>
        staticProbability[m] == old(staticProbability[m]) && transitionDensity[m] == old(transitionDensity[m])
      ensures nodes[n].Function? || nodes[n].Output? ==>
        staticProbability[n] == old(staticProbability[n]) && transitionDensity[n] == old(transitionDensity[n])
    {
      match nodes[n]
      case Input => staticProbability[n], transitionProbability[n], transitionDensity[n] := 0.5, -1.0, 0.5;
      case Ground => staticProbability[n], transitionProbability[n], transitionDensity[n] := 0.0, -1.0, 0.0;
      case Power => staticProbability[n], transitionProbability[n], transitionDensity[n] := 1.0, -1.0, 0.0;
      case Register(d) => staticProbability[n], transitionProbability[n], transitionDensity[n] := 0.5, -1.0, -1.0;
      case _ =>
    }

    /** Transition probabilities are what the static ones make them. */
    ghost predicate Transition(n: nat)
      reads staticProbability, transitionProbability
    {
      n < |nodes| && n < staticProbability.Length && n < transitionProbability.Length
      && (nodes[n].Function? || nodes[n].Register? ==>
        transitionProbability[n] == 2.0 * (staticProbability[n] * (1.0 - staticProbability[n])))
    }

    /** The values of the drivers, as the inner loops read them. */
    method Gather(a: array<real>, ins: seq<nat>) returns (p: seq<real>)
      requires Valid() && a.Length == |nodes| && forall i {:trigger ins[i]} :: 0 <= i < |ins| ==> ins[i] < |nodes|
      ensures p == Values(a[..], ins)
    {
      p := [];
      for i := 0 to |ins|
        invariant p == Values(a[..], ins)[..i]
      {
        p := p + [a[ins[i]]];
      }
    }

    /** One node of a sweep. */
    method SweepNode(n: nat, rep: nat, ghost k: nat, ghost before: seq<real>)
      requires Valid() && k < |Flatten(levels)| && n == Flatten(levels)[k]
      requires SweptTo(nodes, Flatten(levels), k, staticProbability[..], before, rep == 0) && Probabilities(before)
      requires Probabilities(staticProbability[..])
      modifies staticProbability, transitionProbability
      ensures SweptTo(nodes, Flatten(levels), k + 1, staticProbability[..], before, rep == 0)
      ensures Probabilities(staticProbability[..])
      ensures Transition(n) && forall m {:trigger transitionProbability[m]} :: 0 <= m < |nodes| && m != n ==>
        transitionProbability[m] == old(transitionProbability[m]) && staticProbability[m] == old(staticProbability[m])
    {
      ghost var order, s := Flatten(levels), staticProbability[..];
      assert InputsFirst(nodes, order, n, k);
      InRange(nodes, order);
      NotEarlier(nodes, order, k, k);
      match nodes[n] {
        case Function(table, ins) =>
          var p := Gather(staticProbability, ins);
          var totalProb := StaticProbability(table, p);
          staticProbability[n] := totalProb;
          assert Values(staticProbability[..], ins) == p;
        case Register(d) =>
          if rep != 0 { staticProbability[n] := staticProbability[d]; }
        case Output(d) =>
          staticProbability[n] := staticProbability[d];
        case _ =>
      }
      AfterNode(nodes, order, k, s, staticProbability[..], before, rep == 0);
      if nodes[n].Function? || nodes[n].Register? {
        transitionProbability[n] := 2.0 * (staticProbability[n] * (1.0 - staticProbability[n]));
      }
    }

    /** One sweep over the levels. */
    method Sweep(rep: nat)
      requires Valid() && Probabilities(staticProbability[..])
      modifies staticProbability, transitionProbability
      ensures SweptTo(nodes, Flatten(levels), |Flatten(levels)|, staticProbability[..], old(staticProbability[..]),
        rep == 0)
      ensures Probabilities(staticProbability[..])
      ensures forall k {:trigger Flatten(levels)[k]} :: 0 <= k < |Flatten(levels)| ==> Transition(Flatten(levels)[k])
    {
      hide Ordered;
      ghost var order, before := Flatten(levels), staticProbability[..];
      for i := 0 to |levels|
        invariant |Flatten(levels[..i])| <= |order|
        invariant SweptTo(nodes, order, |Flatten(levels[..i])|, staticProbability[..], before, rep == 0)
        invariant Probabilities(staticProbability[..])
        invariant forall k {:trigger order[k]} :: 0 <= k < |Flatten(levels[..i])| ==> Transition(order[k])
      {
        FlattenNext(levels, i);
        for j := 0 to |levels[i]|
          invariant |Flatten(levels[..i])| + j <= |order|
          invariant SweptTo(nodes, order, |Flatten(levels[..i])| + j, staticProbability[..], before, rep == 0)
          invariant Probabilities(staticProbability[..])
          invariant forall k {:trigger order[k]} :: 0 <= k < |Flatten(levels[..i])| + j ==> Transition(order[k])
        {
          FlattenAt(levels, i, j);
          SweepNode(levels[i][j], rep, |Flatten(levels[..i])| + j, before);
        }
      }
      assert levels[..|levels|] == levels;
    }

    /** The states between the sweeps: the first sweep holds the registers, the later ones move them. */
    ghost predicate Swept(sweeps: seq<seq<real>>)
      requires Ordered(nodes, Flatten(levels))
    {
      && (forall r {:trigger sweeps[r]} :: 0 <= r < |sweeps| ==> Probabilities(sweeps[r]))
      && forall r {:trigger sweeps[r]} :: 0 < r < |sweeps| ==>
           SweptTo(nodes, Flatten(levels), |Flatten(levels)|, sweeps[r], sweeps[r - 1], r == 1)
    }

    /** calc_probabilities_and_init_act_data: three sweeps from the initial probabilities. Everything stays a
        probability, and transition probabilities are at most one half. */
    method CalcProbabilities() returns (ghost sweeps: seq<seq<real>>)
      requires Valid() && Probabilities(staticProbability[..])
      modifies staticProbability, transitionProbability
      ensures |sweeps| == 4 && Swept(sweeps) && sweeps[0] == old(staticProbability[..])
      ensures sweeps[3] == staticProbability[..]
      ensures forall k {:trigger Flatten(levels)[k]} :: 0 <= k < |Flatten(levels)| ==> Transition(Flatten(levels)[k])
      ensures forall k {:trigger Flatten(levels)[k]} :: 0 <= k < |Flatten(levels)| ==>
        TransitionIsHalf(Flatten(levels)[k])
    {
      hide SweptTo, Probability;
      sweeps := [staticProbability[..]];
      for rep := 0 to 3
        invariant |sweeps| == rep + 1 && Swept(sweeps) && sweeps[0] == old(staticProbability[..])
        invariant sweeps[rep] == staticProbability[..]
        invariant rep > 0 ==> forall k {:trigger Flatten(levels)[k]} :: 0 <= k < |Flatten(levels)| ==>
          Transition(Flatten(levels)[k])
      {
        Sweep(rep);
        sweeps := sweeps + [staticProbability[..]];
      }
      forall k {:trigger Flatten(levels)[k]} | 0 <= k < |Flatten(levels)| ensures TransitionIsHalf(Flatten(levels)[k]) {
        HalfAtMost(Flatten(levels)[k]);
      }
    }

    /** The transition probability of a function or a register is between 0 and one half. */
    ghost predicate TransitionIsHalf(n: nat)
      reads transitionProbability
    {
      n < |nodes| && n < transitionProbability.Length
      && (nodes[n].Function? || nodes[n].Register? ==> 0.0 <= transitionProbability[n] <= 0.5)
    }

    lemma {:induction false} HalfAtMost(n: nat)
      requires Transition(n) && Probabilities(staticProbability[..])
      ensures TransitionIsHalf(n)
    {
      assert staticProbability[..][n] == staticProbability[n];
      TransitionBounded(staticProbability[n]);
    }

    // ----- transition densities -----

    /** The density of a function node. */
    method FunctionDensity(f: seq<bool>, ins: seq<nat>) returns (r: real)
      requires Valid() && TableOf(f, |ins|) && Probabilities(staticProbability[..])
      requires forall i {:trigger ins[i]} :: 0 <= i < |ins| ==> ins[i] < |nodes|
      ensures r == Density(f, Values(staticProbability[..], ins), Values(transitionDensity[..], ins), |ins|)
    {
      var p := Gather(staticProbability, ins);
      var dens := Gather(transitionDensity, ins);
      r := 0.0;
      if |ins| == 1 {
        OneInputDensity(f, p, dens);
        if !f[0] && !f[1] { r := 0.0; }
        if !f[0] && f[1] { r := dens[0]; }
        if f[0] && !f[1] { r := dens[0]; }
        if f[0] && f[1] { r := 0.0; }
      } else {
        assert Probabilities(p);
        for m := 0 to |ins|
          invariant r == Density(f, p, dens, m)
        {
          var d := BooleanDifference(f, |ins|, m);
          var x := InputDensity(f, p, m, d, dens[m]);
          r := r + x;
        }
      }
    }

    method DensityNode(n: nat, ghost k: nat, ghost before: seq<real>)
      requires Valid() && k < |Flatten(levels)| && n == Flatten(levels)[k] && Probabilities(staticProbability[..])
      requires DensityTo(nodes, Flatten(levels), k, staticProbability[..], transitionDensity[..], before)
      modifies transitionDensity
      ensures DensityTo(nodes, Flatten(levels), k + 1, staticProbability[..], transitionDensity[..], before)
    {
      hide Density;
      ghost var order, s, t := Flatten(levels), staticProbability[..], transitionDensity[..];
      assert InputsFirst(nodes, order, n, k);
      InRange(nodes, order);
      NotEarlier(nodes, order, k, k);
      match nodes[n] {
        case Function(table, ins) =>
          var r := FunctionDensity(table, ins);
          transitionDensity[n] := r;
          assert Values(transitionDensity[..], ins) == Values(t, ins);
        case Register(d) =>
          transitionDensity[n] := 2.0 * (staticProbability[d] * (1.0 - staticProbability[d]));
        case Output(d) =>
          transitionDensity[n] := staticProbability[d];
        case _ =>
      }
      DensityStep(nodes, order, k, s, t, transitionDensity[..], before);
    }

    /** calc_transition_density: afterwards a function's density is, over its inputs, the sum of the input's density
        times the exact probability that flipping that input flips the function. */
    method CalcTransitionDensity()
      requires Valid() && Probabilities(staticProbability[..])
      modifies transitionDensity
      ensures DensityTo(nodes, Flatten(levels), |Flatten(levels)|, staticProbability[..], transitionDensity[..],
        old(transitionDensity[..]))
    {
      ghost var order, before := Flatten(levels), transitionDensity[..];
      for i := 0 to |levels|
        invariant |Flatten(levels[..i])| <= |order|
        invariant DensityTo(nodes, order, |Flatten(levels[..i])|, staticProbability[..], transitionDensity[..], before)
      {
        FlattenNext(levels, i);
        for j := 0 to |levels[i]|
          invariant |Flatten(levels[..i])| + j <= |order|
          invariant DensityTo(nodes, order, |Flatten(levels[..i])| + j, staticProbability[..], transitionDensity[..],
            before)
        {
          FlattenAt(levels, i, j);
          DensityNode(levels[i][j], |Flatten(levels[..i])| + j, before);
        }
      }
      assert levels[..|levels|] == levels;
    }

    // ----- the whole estimation -----

    /** What the estimation leaves on node `n`. */
    ghost predicate Estimated(n: nat)
      requires Valid()
      reads staticProbability, transitionDensity
    {
      n < |nodes| &&
      var s, t := staticProbability[..], transitionDensity[..];
      && Probability(s[n]) && 0.0 <= t[n]
      && match nodes[n]
         case Function(table, ins) => TableOf(table, |ins|) && s[n] == Prob(table, Values(s, ins))
           && t[n] == Density(table, Values(s, ins), Values(t, ins), |ins|) <= DensitySum(Values(t, ins), |ins|)
         case Register(d) => d < |nodes| && t[n] == 2.0 * (s[d] * (1.0 - s[d])) <= 0.5
         case Output(d) => d < |nodes| && s[n] == s[d] == t[n]
         case Input => s[n] == t[n] == 0.5
         case Ground => s[n] == t[n] == 0.0
         case Power => s[n] == 1.0 && t[n] == 0.0
    }

    /** activity_estimation: on every listed node the probability is one, and the density is non-negative and at most
        the sum of the densities of the inputs. */
    method Estimate()
      requires Valid() && Probabilities(staticProbability[..])
      requires forall n :: 0 <= n < |nodes| ==> 0.0 <= transitionDensity[n]
      modifies staticProbability, transitionProbability, transitionDensity
      ensures forall k {:trigger Flatten(levels)[k]} :: 0 <= k < |Flatten(levels)| ==> Estimated(Flatten(levels)[k])
    {
      hide Density, Prob, DensitySum, SweptTo, DensityTo, Ordered;
      ghost var order := Flatten(levels);
      Initialize();
      ghost var before := transitionDensity[..];
      forall k {:trigger order[k]} | 0 <= k < |order| ensures SourceStarts(nodes, before, order[k]) {
        assert Initial(order[k]);
      }
      assert forall k {:trigger order[k]} :: 0 <= k < |order| ==> Started(order[k], staticProbability[..], before);
      var sweeps := CalcProbabilities();
      CalcTransitionDensity();
      DensitiesNonNegative(nodes, order, |order|, staticProbability[..], transitionDensity[..], before);
      assert order[..|order|] == order;
      forall k {:trigger order[k]} | 0 <= k < |order| ensures Estimated(order[k]) {
        NodeEstimated(k, sweeps, before);
      }
    }

    lemma {:induction false} NodeEstimated(k: nat, sweeps: seq<seq<real>>, before: seq<real>)
      requires Valid() && k < |Flatten(levels)| && |sweeps| == 4 && Swept(sweeps) && sweeps[3] == staticProbability[..]
      requires DensityTo(nodes, Flatten(levels), |Flatten(levels)|, staticProbability[..], transitionDensity[..],
        before)
      requires Started(Flatten(levels)[k], sweeps[0], before)
      requires forall n {:trigger n in Flatten(levels)} :: n in Flatten(levels) ==>
        n < |nodes| && 0.0 <= transitionDensity[n]
      ensures Estimated(Flatten(levels)[k])
    {
      hide Density, Prob, DensitySum;
      ghost var order, s, t := Flatten(levels), staticProbability[..], transitionDensity[..];
      var n := order[k];
      assert InputsFirst(nodes, order, n, k);
      InRange(nodes, order);
      NotEarlier(nodes, order, k, k);
      assert DensitySettled(nodes, order, k, s, t, before);
      SettledNonNegative(nodes, order, k, s, t, before);
      assert Settled(nodes, order, k, sweeps[1], sweeps[0], true)
        && Settled(nodes, order, k, sweeps[2], sweeps[1], false)
        && Settled(nodes, order, k, sweeps[3], sweeps[2], false);
    }

    ghost predicate Started(n: nat, s: seq<real>, t: seq<real>) {
      n < |nodes| && n < |s| && n < |t| &&
      match nodes[n]
      case Input => s[n] == t[n] == 0.5
      case Ground => s[n] == t[n] == 0.0
      case Power => s[n] == 1.0 && t[n] == 0.0
      case _ => true
    }
  }
}
