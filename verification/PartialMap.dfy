/** partial_map_top: the depth-first pass that turns every word-level node into gates.

    Buffers and constant shifts, whose lowering merges nets, are not among the nodes a netlist of this model
    has; hard blocks are passed over as the source does without VPR6. */
module PartialMap {
  import opened Wrappers
  import opened Semantics
  import opened Runs
  import opened Netlists
  import opened RippleCells
  import opened RippleBuild
  import opened BitwiseGates
  import opened LogicalGates
  import opened Subtractors
  import opened Equality
  import opened Comparators
  import opened OrderOrEqual
  import opened PortMuxes
  import opened MultiplierCells
  import Adders
  import SoftMultiplier

  predicate WordLevelKind(kind: Kind, ports: nat) {
    || kind in {Add, Minus, Multiply, Gt, Lt, Gte, Lte, LogicalEqual, NotEqual, MultiPortMux, BitwiseNot}
    || IsBitwise(kind) || (IsLogical(kind) && ports == 2)
  }

  predicate WordLevel(c: Cell) {
    WordLevelKind(c.kind, |c.inPorts|)
  }

  function FirstWidth(c: Cell): nat {
    if c.inPorts != [] then c.inPorts[0].width else 0
  }

  /** A word-level node has the shape create_operation_node and the mux lowering give it. */
  predicate Mappable(c: Cell) {
    WordLevel(c) ==>
      match c.kind
      case Add => AddNode(c)
      case Minus => SubNode(c) || NegNode(c)
      case Multiply => MultNode(c)
      case Gt => OrderNode(c, FirstWidth(c))
      case Lt => OrderNode(c, FirstWidth(c))
      case Gte => GeNode(c, FirstWidth(c))
      case Lte => GeNode(c, FirstWidth(c))
      case LogicalEqual => EqualNode(c, FirstWidth(c))
      case NotEqual => EqualNode(c, FirstWidth(c))
      case MultiPortMux => |c.inPorts| >= 1 && PortMuxNode(c, FirstWidth(c), |c.inPorts| - 1)
      case BitwiseNot => NotNode(c)
      case _ => if IsLogical(c.kind) then LogicalNode(c) else BitwiseNode(c) || ReductionNode(c)
  }

  /** The nodes on which an assertion of the source stops the program. */
  predicate Refused(c: Cell) {
    || (WordLevel(c) && c.ins == [])
    || (c.kind in {Gt, Lt, Gte, Lte} && FirstWidth(c) == 1)
    || (c.kind.Multiply? && |c.inPorts| == 2 && c.inPorts[1].width == 1)
  }

  predicate Mapped(c: Cell) {
    WordLevel(c) ==> Undriving(c)
  }

  /** The first `c0` nodes got no new input pin, and fan-out lists only grew at their ends. */
  ghost predicate Kept(c0: nat, pins: seq<Pin>, nets: seq<Net>, pins': seq<Pin>, nets': seq<Net>) {
    && |pins| <= |pins'| && |nets| <= |nets'|
    && (forall q {:trigger pins'[q]} :: 0 <= q < |pins'| && SitsBelow(pins'[q], c0) ==>
          q < |pins| && SitsBelow(pins[q], c0) && pins[q].node == pins'[q].node)
    && (forall e {:trigger nets'[e]} :: 0 <= e < |nets| ==> nets[e].fanouts <= nets'[e].fanouts)
  }

  lemma {:induction false} KeptThen(c0: nat, p: seq<Pin>, n: seq<Net>, p': seq<Pin>, n': seq<Net>, p'': seq<Pin>,
                                    n'': seq<Net>)
    requires Kept(c0, p, n, p', n') && Kept(c0, p', n', p'', n'')
    ensures Kept(c0, p, n, p'', n'')
  {
    forall e {:trigger n''[e]} | 0 <= e < |n| ensures n[e].fanouts <= n''[e].fanouts {
      assert n[e].fanouts <= n'[e].fanouts <= n''[e].fanouts;
    }
  }

  lemma {:induction false} KeptSame(c0: nat, p: seq<Pin>, n: seq<Net>)
    ensures Kept(c0, p, n, p, n)
  {
  }

  lemma {:induction false} FencedKept(f: Fence, count: nat, c0: nat, pins: seq<Pin>, nets: seq<Net>)
    requires Fenced(f, count, pins, nets) && c0 <= f.floor
    ensures Kept(c0, f.pins, f.nets, pins, nets)
  {
  }

  /** partial_map_node */
  method PartialMapNode(g: Netlist, n: nat, ghost c0: nat) returns (ok: bool)
    requires g.Ready() && WellFormed(g.Meaning()) && n < |g.cells| && Mappable(g.cells[n]) && c0 <= |g.cells|
    modifies g
    ensures g.Ready() && WellFormed(g.Meaning()) && (old(g.tidy) ==> g.tidy)
    ensures Kept(c0, old(g.pins), old(g.nets), g.pins, g.nets)
    ensures ok <==> !Refused(old(g.cells[n]))
    ensures Lowers(old(g.Meaning()), g.Meaning()) && OtherCells(old(g.cells), g.cells, n)
    ensures ok ==> Mapped(g.cells[n])
  {
    hide Lowers, Kept, Fenced;
    ghost var c := g.cells[n];
    g.PutFence();
    ghost var f := g.fence;
    ok := MapNode(g, n);
    FencedKept(f, |g.nodes|, c0, g.pins, g.nets);
  }

  method MapNode(g: Netlist, n: nat) returns (ok: bool)
    requires g.Ready() && WellFormed(g.Meaning()) && n < |g.cells| && Mappable(g.cells[n])
    modifies g
    ensures g.Ready() && WellFormed(g.Meaning()) && g.Steady(old(g.fence), old(g.fenced), old(g.tidy))
    ensures ok <==> !Refused(old(g.cells[n]))
    ensures Lowers(old(g.Meaning()), g.Meaning()) && OtherCells(old(g.cells), g.cells, n)
    ensures ok ==> Mapped(g.cells[n])
  {
    hide Lowers, Undriving, WellFormed;
    ghost var c := g.cells[n];
    assert NodeOk(g.nodes[n], g.pins, n, c);
    var kind, ports := g.nodes[n].kind, |g.nodes[n].inPorts|;
    ok := true;
    LowersReflexive(g.Meaning());
    if WordLevelKind(kind, ports) && |g.nodes[n].inPins| == 0 {
      ok := false;
    } else if kind in {Gt, Lt} {
      ok := InstantiateGt(g, n, FirstWidth(c));
    } else if kind in {Gte, Lte} {
      ok := InstantiateGe(g, n, FirstWidth(c));
    } else if kind == Multiply {
      ok := SoftMultiplier.InstantiateSimpleSoftMultiplier(g, n);
    } else {
      MapTotal(g, n, kind, ports);
    }
  }

  /** The cases that never stop. */
  method MapTotal(g: Netlist, n: nat, kind: Kind, ports: nat)
    requires g.Ready() && WellFormed(g.Meaning()) && n < |g.cells| && Mappable(g.cells[n])
    requires kind == g.cells[n].kind && ports == |g.cells[n].inPorts| && kind !in {Gt, Lt, Gte, Lte, Multiply}
    requires WordLevel(g.cells[n]) ==> g.cells[n].ins != []
    modifies g
    ensures g.Ready() && WellFormed(g.Meaning()) && g.Steady(old(g.fence), old(g.fenced), old(g.tidy))
    ensures Lowers(old(g.Meaning()), g.Meaning()) && OtherCells(old(g.cells), g.cells, n) && Mapped(g.cells[n])
  {
    hide Lowers, Undriving, WellFormed, LogicalNode, Netlist.Valid;
    ghost var w := FirstWidth(g.cells[n]);
    LowersReflexive(g.Meaning());
    if kind == Add {
      Adders.InstantiateAddWCarry(g, n);
    } else if kind == Minus {
      if ports == 2 { InstantiateSubWCarry(g, n); } else { InstantiateUnarySub(g, n); }
    } else if kind in {LogicalEqual, NotEqual} {
      InstantiateEqual(g, n, w);
    } else if kind == MultiPortMux {
      InstantiateMultiPortMux(g, n, w, ports - 1);
    } else if kind == BitwiseNot {
      InstantiateNotLogic(g, n);
    } else if IsBitwise(kind) {
      if ports == 2 { var ok := InstantiateBitwiseLogic(g, n); } else { InstantiateBitwiseReduction(g, n); }
    } else if IsLogical(kind) && ports == 2 {
      InstantiateLogicalLogic(g, n);
    }
  }

  // ----- what the traversal reaches -----

  ghost predicate ReadsNet(cells: seq<Cell>, m: nat, e: nat) {
    m < |cells| && exists i {:trigger cells[m].ins[i]} :: 0 <= i < |cells[m].ins| && cells[m].ins[i] == Some(e)
  }

  /** An output net of node `k` is read by node `m`. */
  ghost predicate Feeds(cells: seq<Cell>, k: nat, m: nat) {
    k < |cells| && exists j {:trigger cells[k].outs[j]} ::
      0 <= j < |cells[k].outs| && cells[k].outs[j].Some? && ReadsNet(cells, m, cells[k].outs[j].value)
  }

  /** The traversal starts at the input nodes and at the readers of the constant nets. */
  ghost predicate Root(a: NL, inputs: seq<nat>, m: nat) {
    m in inputs || ReadsNet(a.cells, m, a.zero) || ReadsNet(a.cells, m, a.one) || ReadsNet(a.cells, m, a.pad)
  }

  ghost predicate Path(a: NL, inputs: seq<nat>, path: seq<nat>) {
    path != [] && Root(a, inputs, path[0]) && forall i {:trigger path[i]} :: 0 < i < |path| ==>
      Feeds(a.cells, path[i - 1], path[i])
  }

  ghost predicate Reachable(a: NL, inputs: seq<nat>, m: nat) {
    exists path: seq<nat> :: Path(a, inputs, path) && path[|path| - 1] == m
  }

  lemma {:induction false} RootReachable(a: NL, inputs: seq<nat>, m: nat)
    requires Root(a, inputs, m)
    ensures Reachable(a, inputs, m)
  {
    assert Path(a, inputs, [m]);
  }

  lemma {:induction false} FedReachable(a: NL, inputs: seq<nat>, k: nat, m: nat)
    requires Reachable(a, inputs, k) && Feeds(a.cells, k, m)
    ensures Reachable(a, inputs, m)
  {
    hide Feeds, Root;
    var path: seq<nat> :| Path(a, inputs, path) && path[|path| - 1] == k;
    var longer := path + [m];
    forall i {:trigger longer[i]} | 0 < i < |longer| ensures Feeds(a.cells, longer[i - 1], longer[i]) {
      if i < |path| { assert longer[i] == path[i]; }
    }
    assert Path(a, inputs, longer);
  }

  /** A set with all roots that is closed under fan-out has every reachable node. */
  lemma {:induction false} ClosedHasAll(a: NL, inputs: seq<nat>, s: set<nat>, path: seq<nat>)
    requires Path(a, inputs, path)
    requires forall m {:trigger Root(a, inputs, m)} :: Root(a, inputs, m) ==> m in s
    requires forall k: nat, m: nat {:trigger Feeds(a.cells, k, m)} :: k in s && Feeds(a.cells, k, m) ==> m in s
    ensures path[|path| - 1] in s
  {
    hide Feeds, Root;
    if |path| > 1 {
      var shorter := path[..|path| - 1];
      assert Path(a, inputs, shorter);
      ClosedHasAll(a, inputs, s, shorter);
      assert Feeds(a.cells, path[|path| - 2], path[|path| - 1]);
    }
  }

  /** A refused node; on a tidy netlist one that can be reached. */
  ghost predicate Stops(a: NL, inputs: seq<nat>, neat: bool) {
    exists k: nat :: k < |a.cells| && Refused(a.cells[k]) && (neat ==> Reachable(a, inputs, k))
  }

  // ----- the traversal -----

  /** The nodes from before the pass that are not marked; nodes made by the pass carry the mark from the start. */
  ghost function Unmarked(c0: nat, marked: set<nat>): set<nat> {
    set k: nat | k < c0 && k !in marked
  }

  lemma {:induction false} MarkShrinks(c0: nat, marked: set<nat>, more: set<nat>, n: nat)
    requires marked <= more && n < c0 && n !in marked && n in more
    ensures |Unmarked(c0, more)| < |Unmarked(c0, marked)|
  {
    assert Unmarked(c0, more) <= Unmarked(c0, marked) - {n};
    SubsetSize(Unmarked(c0, more), Unmarked(c0, marked) - {n});
  }

  lemma {:induction false} SubsetSize(a: set<nat>, b: set<nat>)
    requires a <= b
    ensures |a| <= |b|
  {
    if a != {} {
      var x :| x in a;
      SubsetSize(a - {x}, b - {x});
    }
  }

  lemma {:induction false} UnmarkedShrinks(c0: nat, marked: set<nat>, more: set<nat>)
    requires marked <= more
    ensures |Unmarked(c0, more)| <= |Unmarked(c0, marked)|
  {
    SubsetSize(Unmarked(c0, more), Unmarked(c0, marked));
  }

  /** Nodes without a mark are as they were before the pass. */
  ghost predicate Untouched(a: NL, cells: seq<Cell>, marked: set<nat>) {
    |a.cells| <= |cells| && forall k {:trigger cells[k]} :: 0 <= k < |a.cells| && k !in marked ==>
      cells[k] == a.cells[k]
  }

  /** The nodes marked in between: none was refused, they are mapped, and so is all they feed; the others did not
      change. */
  ghost predicate Progress(a: NL, before: seq<Cell>, after: seq<Cell>, marked: set<nat>, more: set<nat>) {
    && marked <= more && |a.cells| <= |before| <= |after| && Untouched(a, after, more)
    && (forall k {:trigger after[k]} :: 0 <= k < |a.cells| && (k in marked || k !in more) ==> after[k] == before[k])
    && (forall k: nat {:trigger k in more} :: k in more && k !in marked ==>
      k < |a.cells| && Mapped(after[k]) && !Refused(a.cells[k]))
    && Expanded(a.cells, marked, more)
  }

  ghost predicate Expanded(cells: seq<Cell>, marked: set<nat>, more: set<nat>) {
    forall k: nat, m: nat {:trigger Feeds(cells, k, m)} :: k in more && k !in marked && Feeds(cells, k, m) ==> m in more
  }

  lemma {:induction false} ProgressThen(a: NL, x: seq<Cell>, y: seq<Cell>, z: seq<Cell>, p: set<nat>, q: set<nat>,
                                        r: set<nat>)
    requires Progress(a, x, y, p, q) && Progress(a, y, z, q, r)
    ensures Progress(a, x, z, p, r)
  {
    hide Feeds, Mapped, Refused;
    forall k {:trigger z[k]} | 0 <= k < |a.cells| && (k in p || k !in r) ensures z[k] == x[k] { assert y[k] == x[k]; }
    forall k: nat {:trigger k in r} | k in r && k !in p ensures k < |a.cells| && Mapped(z[k]) && !Refused(a.cells[k]) {
      if k in q { assert z[k] == y[k]; }
    }
  }

  lemma {:induction false} NoProgress(a: NL, cells: seq<Cell>, marked: set<nat>)
    requires Untouched(a, cells, marked)
    ensures Progress(a, cells, cells, marked, marked)
  {
  }

  /** From one state of the traversal to a later one. */
  ghost predicate Went(a: NL, before: NL, after: NL, pins: seq<Pin>, nets: seq<Net>, pins': seq<Pin>, nets': seq<Net>,
                       marked: set<nat>, more: set<nat>) {
    Lowers(before, after) && Kept(|a.cells|, pins, nets, pins', nets')
      && Progress(a, before.cells, after.cells, marked, more)
  }

  lemma {:induction false} WentThen(a: NL, x: NL, y: NL, z: NL, px: seq<Pin>, nx: seq<Net>, py: seq<Pin>, ny: seq<Net>,
                                    pz: seq<Pin>, nz: seq<Net>,
                                    p: set<nat>, q: set<nat>, r: set<nat>)
    requires Went(a, x, y, px, nx, py, ny, p, q) && Went(a, y, z, py, ny, pz, nz, q, r)
    ensures Went(a, x, z, px, nx, pz, nz, p, r)
  {
    hide Lowers, Kept, Progress;
    LowersTransitive(x, y, z);
    KeptThen(|a.cells|, px, nx, py, ny, pz, nz);
    ProgressThen(a, x.cells, y.cells, z.cells, p, q, r);
  }

  lemma {:induction false} WentNowhere(a: NL, x: NL, pins: seq<Pin>, nets: seq<Net>, marked: set<nat>)
    requires Untouched(a, x.cells, marked)
    ensures Went(a, x, x, pins, nets, pins, nets, marked, marked)
  {
    LowersReflexive(x);
    KeptSame(|a.cells|, pins, nets);
    NoProgress(a, x.cells, marked);
    hide Lowers, Kept;
  }

  /** After all that node `n` feeds, the node itself. */
  lemma {:induction false} NodeDone(a: NL, start: seq<Cell>, mid: seq<Cell>, last: seq<Cell>, marked: set<nat>,
                                    more: set<nat>, n: nat)
    requires n < |a.cells| && n !in marked && Progress(a, start, mid, marked + {n}, more)
    requires OtherCells(mid, last, n) && Mapped(last[n]) && !Refused(a.cells[n])
    requires forall m: nat {:trigger Feeds(a.cells, n, m)} :: Feeds(a.cells, n, m) ==> m in more
    ensures Progress(a, start, last, marked, more)
  {
    hide Feeds, Refused, Mapped;
    forall k {:trigger last[k]} | 0 <= k < |a.cells| && k != n ensures last[k] == mid[k] {}
    forall k: nat {:trigger k in more} | k in more && k !in marked
      ensures k < |a.cells| && Mapped(last[k]) && !Refused(a.cells[k]) {
      if k != n { assert k !in marked + {n} && last[k] == mid[k]; }
    }
    forall k: nat, m: nat {:trigger Feeds(a.cells, k, m)} | k in more && k !in marked && Feeds(a.cells, k, m)
      ensures m in more {
      if k != n { assert k !in marked + {n}; }
    }
  }

  lemma {:induction false} NodeWent(a: NL, x: NL, y: NL, z: NL, px: seq<Pin>, nx: seq<Net>, py: seq<Pin>, ny: seq<Net>,
                                    pz: seq<Pin>, nz: seq<Net>,
                                    marked: set<nat>, more: set<nat>, n: nat)
    requires Went(a, x, y, px, nx, py, ny, marked + {n}, more) && n < |a.cells| && n !in marked
    requires Lowers(y, z) && Kept(|a.cells|, py, ny, pz, nz) && OtherCells(y.cells, z.cells, n) && Mapped(z.cells[n])
    requires !Refused(a.cells[n])
    requires forall m: nat {:trigger Feeds(a.cells, n, m)} :: Feeds(a.cells, n, m) ==> m in more
    ensures Went(a, x, z, px, nx, pz, nz, marked, more)
  {
    hide Lowers, Kept, Progress, Feeds, Mapped, Refused, OtherCells;
    LowersTransitive(x, y, z);
    KeptThen(|a.cells|, px, nx, py, ny, pz, nz);
    NodeDone(a, x.cells, y.cells, z.cells, marked, more, n);
  }

  /** A node as it was, in the middle of its visit. */
  lemma {:induction false} InProgress(a: NL, start: seq<Cell>, now: seq<Cell>, marked: set<nat>, more: set<nat>, n: nat)
    requires n < |a.cells| && n !in marked && Untouched(a, start, marked) && Progress(a, start, now, marked + {n}, more)
    ensures n < |now| && now[n] == a.cells[n] && n in more
  {
    hide Expanded;
    assert start[n] == a.cells[n];
  }

  lemma {:induction false} WentOn(a: NL, x: NL, y: NL, px: seq<Pin>, nx: seq<Net>, py: seq<Pin>, ny: seq<Net>,
                                  marked: set<nat>, more: set<nat>)
    requires Went(a, x, y, px, nx, py, ny, marked, more)
    ensures Untouched(a, y.cells, more) && Lowers(x, y) && marked <= more && Kept(|a.cells|, px, nx, py, ny)
    ensures Progress(a, x.cells, y.cells, marked, more)
  {
    hide Lowers, Kept, Expanded, Untouched;
  }

  predicate AllMappable(cells: seq<Cell>) {
    forall k {:trigger cells[k]} :: 0 <= k < |cells| ==> Mappable(cells[k])
  }

  /** depth_first_traverse_parital_map: the fan-out first, then the node itself. */
  method Visit(g: Netlist, n: nat, ghost a: NL, ghost inputs: seq<nat>, ghost neat: bool, c0: nat, marked: set<nat>)
    returns (ok: bool, marked': set<nat>)
    requires g.Ready() && WellFormed(g.Meaning()) && Untouched(a, g.cells, marked) && AllMappable(a.cells)
    requires c0 == |a.cells| && n < c0 && n !in marked && (neat ==> g.tidy && Reachable(a, inputs, n))
    modifies g
    ensures g.Ready() && WellFormed(g.Meaning()) && (old(g.tidy) ==> g.tidy) && Lowers(old(g.Meaning()), g.Meaning())
    ensures marked <= marked' && n in marked'
    ensures ok ==> Went(a, old(g.Meaning()), g.Meaning(), old(g.pins), old(g.nets), g.pins, g.nets, marked, marked')
    ensures !ok ==> Stops(a, inputs, neat)
    decreases |Unmarked(c0, marked)|, 0
  {
    hide Lowers, WellFormed, Went, Reachable, Mappable, Feeds, Refused, Mapped, Kept;
    ghost var start, pins, nets := g.Meaning(), g.pins, g.nets;
    MarkShrinks(c0, marked, marked + {n}, n);
    ok, marked' := VisitFanout(g, n, a, inputs, neat, c0, marked);
    if ok {
      ghost var mid, midPins, midNets := g.Meaning(), g.pins, g.nets;
      WentOn(a, start, mid, pins, nets, midPins, midNets, marked + {n}, marked');
      InProgress(a, start.cells, mid.cells, marked, marked', n);
      assert Mappable(a.cells[n]);
      ok := PartialMapNode(g, n, c0);
      LowersTransitive(start, mid, g.Meaning());
      if ok { NodeWent(a, start, mid, g.Meaning(), pins, nets, midPins, midNets, g.pins, g.nets, marked, marked', n); }
    }
  }

  /** The loop over the output pins of a node that was just marked. */
  method VisitFanout(g: Netlist, n: nat, ghost a: NL, ghost inputs: seq<nat>, ghost neat: bool, c0: nat,
                     marked: set<nat>)
    returns (ok: bool, marked': set<nat>)
    requires g.Ready() && WellFormed(g.Meaning()) && Untouched(a, g.cells, marked) && AllMappable(a.cells)
    requires c0 == |a.cells| && n < c0 && n !in marked && (neat ==> g.tidy && Reachable(a, inputs, n))
    modifies g
    ensures g.Ready() && WellFormed(g.Meaning()) && (old(g.tidy) ==> g.tidy) && Lowers(old(g.Meaning()), g.Meaning())
    ensures marked + {n} <= marked'
    ensures ok ==> Went(a, old(g.Meaning()), g.Meaning(), old(g.pins), old(g.nets), g.pins, g.nets, marked + {n},
      marked')
    ensures ok ==> forall m: nat {:trigger Feeds(a.cells, n, m)} :: Feeds(a.cells, n, m) ==> m in marked'
    ensures !ok ==> Stops(a, inputs, neat)
    decreases |Unmarked(c0, marked + {n})|, 3
  {
    hide Lowers, WellFormed, Went, Reachable, Mappable, ReadsNet, Stops, AllMappable, Kept;
    ghost var start, pins, nets := g.Meaning(), g.pins, g.nets;
    marked' := marked + {n};
    WentNowhere(a, start, pins, nets, marked');
    LowersReflexive(start);
    assert g.cells[n] == a.cells[n];
    SlotPin(g.nodes[n], g.pins, n, g.cells[n]) by { assert NodeOk(g.nodes[n], g.pins, n, g.cells[n]); }
    var width := |g.nodes[n].outPins|;
    ok := true;
    var i := 0;
    while ok && i < width
      invariant i <= width && width == |a.cells[n].outs|
      invariant g.Ready() && WellFormed(g.Meaning()) && (old(g.tidy) ==> g.tidy) && Lowers(start, g.Meaning())
      invariant marked + {n} <= marked'
      invariant ok ==> Went(a, start, g.Meaning(), pins, nets, g.pins, g.nets, marked + {n}, marked')
      invariant ok ==> Fed(a.cells, n, i, marked')
      invariant !ok ==> Stops(a, inputs, neat)
    {
      ghost var mid, midPins, midNets, before := g.Meaning(), g.pins, g.nets, marked';
      WentOn(a, start, mid, pins, nets, midPins, midNets, marked + {n}, marked');
      InProgress(a, start.cells, mid.cells, marked, marked', n);
      UnmarkedShrinks(c0, marked + {n}, marked');
      ok, marked' := VisitOutput(g, n, i, a, inputs, neat, c0, marked');
      if ok { WentThen(a, start, mid, g.Meaning(), pins, nets, midPins, midNets, g.pins, g.nets, marked + {n}, before,
        marked'); }
      LowersTransitive(start, mid, g.Meaning());
      i := i + 1;
    }
    if ok { AllFed(a.cells, n, marked'); }
  }

  /** What the first `i` outputs of a node feed is in the set. */
  ghost predicate Fed(cells: seq<Cell>, n: nat, i: nat, s: set<nat>) {
    n < |cells| && forall j {:trigger cells[n].outs[j]} :: 0 <= j < i && j < |cells[n].outs| ==>
      NetFed(cells, cells[n].outs[j], s)
  }

  ghost predicate NetFed(cells: seq<Cell>, e: Option<nat>, s: set<nat>) {
    e.Some? ==> forall m: nat {:trigger ReadsNet(cells, m, e.value)} :: ReadsNet(cells, m, e.value) ==> m in s
  }

  lemma {:induction false} AllFed(cells: seq<Cell>, n: nat, s: set<nat>)
    requires n < |cells| && Fed(cells, n, |cells[n].outs|, s)
    ensures forall m: nat {:trigger Feeds(cells, n, m)} :: Feeds(cells, n, m) ==> m in s
  {
    hide ReadsNet;
    forall m: nat {:trigger Feeds(cells, n, m)} | Feeds(cells, n, m) ensures m in s {
      var j :| 0 <= j < |cells[n].outs| && cells[n].outs[j].Some? && ReadsNet(cells, m, cells[n].outs[j].value);
      assert NetFed(cells, cells[n].outs[j], s);
    }
  }

  lemma {:induction false} ReadersReachable(a: NL, inputs: seq<nat>, n: nat, i: nat)
    requires n < |a.cells| && Reachable(a, inputs, n) && i < |a.cells[n].outs| && a.cells[n].outs[i].Some?
    ensures forall m: nat {:trigger ReadsNet(a.cells, m, a.cells[n].outs[i].value)} ::
      ReadsNet(a.cells, m, a.cells[n].outs[i].value) ==> Reachable(a, inputs, m)
  {
    hide ReadsNet, Reachable;
    forall m: nat {:trigger ReadsNet(a.cells, m, a.cells[n].outs[i].value)} | ReadsNet(a.cells, m,
      a.cells[n].outs[i].value)
      ensures Reachable(a, inputs, m)
    {
      assert Feeds(a.cells, n, m);
      FedReachable(a, inputs, n, m);
    }
  }

  /** The net of one output pin, if there is one. */
  method VisitOutput(g: Netlist, n: nat, i: nat, ghost a: NL, ghost inputs: seq<nat>, ghost neat: bool, c0: nat,
                     marked: set<nat>)
    returns (ok: bool, marked': set<nat>)
    requires g.Ready() && WellFormed(g.Meaning()) && Untouched(a, g.cells, marked) && AllMappable(a.cells)
    requires c0 == |a.cells| && n < c0 && g.cells[n] == a.cells[n] && i < |a.cells[n].outs|
    requires (neat ==> g.tidy && Reachable(a, inputs, n))
    modifies g
    ensures g.Ready() && WellFormed(g.Meaning()) && (old(g.tidy) ==> g.tidy) && Lowers(old(g.Meaning()), g.Meaning())
    ensures marked <= marked'
    ensures ok ==> Went(a, old(g.Meaning()), g.Meaning(), old(g.pins), old(g.nets), g.pins, g.nets, marked, marked')
    ensures ok ==> NetFed(a.cells, a.cells[n].outs[i], marked')
    ensures !ok ==> Stops(a, inputs, neat)
    decreases |Unmarked(c0, marked)|, 2
  {
    hide Lowers, WellFormed, Went, Reachable, Mappable, ReadsNet, Stops, AllMappable, Kept;
    ok, marked' := true, marked;
    WentNowhere(a, g.Meaning(), g.pins, g.nets, marked);
    LowersReflexive(g.Meaning());
    assert NodeOk(g.nodes[n], g.pins, n, g.cells[n]);
    SlotPin(g.nodes[n], g.pins, n, g.cells[n]);
    if g.nodes[n].outPins[i].Some? {
      var p := g.nodes[n].outPins[i].value;
      assert PinOk(g.pins[p], p, g.nets) && g.pins[p].net == a.cells[n].outs[i];
      if g.pins[p].net.Some? {
        if neat { ReadersReachable(a, inputs, n, i); }
        ok, marked' := VisitNet(g, g.pins[p].net.value, a, inputs, neat, c0, marked);
      }
    }
  }

  /** The nodes behind the first `j` fan-outs of a net are marked. */
  ghost predicate Scanned(fanouts: seq<Option<nat>>, pins: seq<Pin>, j: nat, c0: nat, marked: set<nat>) {
    forall k {:trigger fanouts[k]} ::
      0 <= k < j && k < |fanouts| && fanouts[k].Some? && fanouts[k].value < |pins|
        && SitsBelow(pins[fanouts[k].value], c0) ==>
      pins[fanouts[k].value].node.value in marked
  }

  lemma {:induction false} StillScanned(c0: nat, pins: seq<Pin>, nets: seq<Net>, pins': seq<Pin>, nets': seq<Net>,
                                        e: nat, j: nat, marked: set<nat>, more: set<nat>)
    requires Kept(c0, pins, nets, pins', nets') && e < |nets| && j <= |nets[e].fanouts| && marked <= more
    requires Scanned(nets[e].fanouts, pins, j, c0, marked)
    ensures e < |nets'| && j <= |nets'[e].fanouts| && Scanned(nets'[e].fanouts, pins', j, c0, more)
  {
    var f, f' := nets[e].fanouts, nets'[e].fanouts;
    assert f <= f';
    forall k {:trigger f'[k]} | 0 <= k < j && k < |f'| && f'[k].Some? && f'[k].value < |pins'|
      && SitsBelow(pins'[f'[k].value], c0)
      ensures pins'[f'[k].value].node.value in more
    {
      assert f[k] == f'[k];
    }
  }

  /** When all fan-outs were scanned, every reader of the net is marked. */
  lemma {:induction false} ReadersMarked(g: Netlist, a: NL, e: nat, marked: set<nat>)
    requires g.Valid() && Untouched(a, g.cells, marked) && e < |g.nets|
    requires Scanned(g.nets[e].fanouts, g.pins, |g.nets[e].fanouts|, |a.cells|, marked)
    ensures NetFed(a.cells, Some(e), marked)
  {
    forall m: nat {:trigger ReadsNet(a.cells, m, e)} | ReadsNet(a.cells, m, e) ensures m in marked {
      if m !in marked {
        assert g.cells[m] == a.cells[m];
        var i :| 0 <= i < |a.cells[m].ins| && a.cells[m].ins[i] == Some(e);
        assert NodeOk(g.nodes[m], g.pins, m, g.cells[m]);
        assert InSlotOk(g.nodes[m].inPins[i], g.pins, m, i, Some(e));
        var q := g.nodes[m].inPins[i].value;
        assert PinOk(g.pins[q], q, g.nets);
        assert g.nets[e].fanouts[g.pins[q].netIdx] == Some(q) && SitsBelow(g.pins[q], |a.cells|);
      }
    }
  }

  /** The fan-out of a net, in order; it may grow on the way. */
  method VisitNet(g: Netlist, e: nat, ghost a: NL, ghost inputs: seq<nat>, ghost neat: bool, c0: nat, marked: set<nat>)
    returns (ok: bool, marked': set<nat>)
    requires g.Ready() && WellFormed(g.Meaning()) && Untouched(a, g.cells, marked) && AllMappable(a.cells)
    requires c0 == |a.cells| && e < |g.nets|
    requires neat ==> g.tidy && forall m: nat {:trigger ReadsNet(a.cells, m, e)} :: ReadsNet(a.cells, m, e) ==>
      Reachable(a, inputs, m)
    modifies g
    ensures g.Ready() && WellFormed(g.Meaning()) && (old(g.tidy) ==> g.tidy) && Lowers(old(g.Meaning()), g.Meaning())
    ensures marked <= marked'
    ensures ok ==> Went(a, old(g.Meaning()), g.Meaning(), old(g.pins), old(g.nets), g.pins, g.nets, marked, marked')
    ensures ok ==> NetFed(a.cells, Some(e), marked')
    ensures !ok ==> Stops(a, inputs, neat)
    decreases |Unmarked(c0, marked)|, 1
  {
    hide Lowers, WellFormed, Went, Reachable, Mappable, Kept, Stops, AllMappable, ReadsNet, NodeOk, PinOk, NetOk,
      Seated, Fenced;
    ghost var start, pins, nets := g.Meaning(), g.pins, g.nets;
    WentNowhere(a, start, pins, nets, marked);
    LowersReflexive(start);
    ok, marked' := true, marked;
    var j := 0;
    while ok && j < |g.nets[e].fanouts|
      invariant g.Ready() && WellFormed(g.Meaning()) && (old(g.tidy) ==> g.tidy) && Lowers(start, g.Meaning())
      invariant e < |g.nets|
      invariant marked <= marked'
      invariant ok ==> Went(a, start, g.Meaning(), pins, nets, g.pins, g.nets, marked, marked')
      invariant ok ==> j <= |g.nets[e].fanouts| && Scanned(g.nets[e].fanouts, g.pins, j, c0, marked')
      invariant !ok ==> Stops(a, inputs, neat)
      decreases |Unmarked(c0, marked')|, |g.nets[e].fanouts| - j, ok
    {
      WentOn(a, start, g.Meaning(), pins, nets, g.pins, g.nets, marked, marked');
      var next := NextNode(g, e, j, a, neat, c0, marked');
      if next.Some? {
        ghost var mid, midPins, midNets, before := g.Meaning(), g.pins, g.nets, marked';
        UnmarkedShrinks(c0, marked, marked');
        ok, marked' := Visit(g, next.value, a, inputs, neat, c0, marked');
        MarkShrinks(c0, before, marked', next.value);
        LowersTransitive(start, mid, g.Meaning());
        if ok {
          WentOn(a, mid, g.Meaning(), midPins, midNets, g.pins, g.nets, before, marked');
          StillScanned(c0, midPins, midNets, g.pins, g.nets, e, j, before, marked');
          NextScanned(c0, midPins, midNets, g.pins, g.nets, e, j, next.value, marked');
          WentThen(a, start, mid, g.Meaning(), pins, nets, midPins, midNets, g.pins, g.nets, marked, before, marked');
        }
      }
      j := j + 1;
    }
    if ok {
      WentOn(a, start, g.Meaning(), pins, nets, g.pins, g.nets, marked, marked');
      ReadersMarked(g, a, e, marked');
    }
  }

  /** Fan-out `j`, whose node was visited, is scanned. */
  lemma {:induction false} NextScanned(c0: nat, pins: seq<Pin>, nets: seq<Net>, pins': seq<Pin>, nets': seq<Net>,
                                       e: nat, j: nat, m: nat, marked: set<nat>)
    requires Kept(c0, pins, nets, pins', nets') && e < |nets| && j < |nets[e].fanouts| && m in marked
    requires nets[e].fanouts[j].Some? && nets[e].fanouts[j].value < |pins|
    requires pins[nets[e].fanouts[j].value].node == Some(m)
    requires e < |nets'| && Scanned(nets'[e].fanouts, pins', j, c0, marked)
    ensures j + 1 <= |nets'[e].fanouts| && Scanned(nets'[e].fanouts, pins', j + 1, c0, marked)
  {
    var f, f' := nets[e].fanouts, nets'[e].fanouts;
    assert f <= f';
    assert f'[j] == f[j];
  }

  /** The node behind fan-out `j`, unless it is marked. */
  method NextNode(g: Netlist, e: nat, j: nat, ghost a: NL, ghost neat: bool, c0: nat,
                  marked: set<nat>) returns (next: Option<nat>)
    requires g.Valid() && e < |g.nets| && j < |g.nets[e].fanouts| && Untouched(a, g.cells, marked) && c0 == |a.cells|
    requires (neat ==> g.tidy)
    ensures next.Some? ==> next.value < c0 && next.value !in marked && (neat ==> ReadsNet(a.cells, next.value, e))
    ensures next.Some? ==>
      g.nets[e].fanouts[j].Some? && g.nets[e].fanouts[j].value < |g.pins|
        && g.pins[g.nets[e].fanouts[j].value].node == next
    ensures next.None? && Scanned(g.nets[e].fanouts, g.pins, j, c0, marked) ==>
      Scanned(g.nets[e].fanouts, g.pins, j + 1, c0, marked)
  {
    next := None;
    assert NetOk(g.nets[e], e, g.pins);
    if g.nets[e].fanouts[j].Some? {
      var q := g.nets[e].fanouts[j].value;
      if g.pins[q].node.Some? && g.pins[q].node.value < c0 && g.pins[q].node.value !in marked {
        next := g.pins[q].node;
        if neat { FanoutReads(g, a, e, q, marked); }
      }
    }
  }

  /** On a tidy netlist the node behind a fan-out reads the net. */
  lemma {:induction false} FanoutReads(g: Netlist, a: NL, e: nat, q: nat, marked: set<nat>)
    requires g.Valid() && g.tidy && Untouched(a, g.cells, marked) && q < |g.pins| && g.pins[q].dir == In
    requires g.pins[q].net == Some(e)
    requires g.pins[q].node.Some? && g.pins[q].node.value < |a.cells| && g.pins[q].node.value !in marked
    ensures ReadsNet(a.cells, g.pins[q].node.value, e)
  {
    var m, i := g.pins[q].node.value, g.pins[q].nodeIdx;
    assert Seated(g.pins[q], q, g.nodes) && NodeOk(g.nodes[m], g.pins, m, g.cells[m]);
    assert InSlotOk(g.nodes[m].inPins[i], g.pins, m, i, g.cells[m].ins[i]);
    assert a.cells[m].ins[i] == Some(e);
  }

  /** The input nodes and the readers of the three constant nets. */
  method VisitRoots(g: Netlist, inputs: seq<nat>, ghost a: NL, ghost neat: bool) returns (ok: bool, marked: set<nat>)
    requires g.Ready() && a == g.Meaning() && WellFormed(a) && AllMappable(a.cells) && (neat ==> g.tidy)
    requires forall i :: 0 <= i < |inputs| ==> inputs[i] < |a.cells|
    modifies g
    ensures g.Ready() && WellFormed(g.Meaning()) && (old(g.tidy) ==> g.tidy) && Lowers(a, g.Meaning())
    ensures ok ==> Progress(a, a.cells, g.cells, {}, marked)
    ensures ok ==> forall m: nat {:trigger Root(a, inputs, m)} :: Root(a, inputs, m) ==> m in marked
    ensures !ok ==> Stops(a, inputs, neat)
  {
    hide Lowers, WellFormed, Went, Reachable, Mappable, Stops, AllMappable, ReadsNet, Kept;
    ghost var pins, nets := g.pins, g.nets;
    var c0 := |g.nodes|;
    WentNowhere(a, a, pins, nets, {});
    LowersReflexive(a);
    ok, marked := true, {};
    var i := 0;
    while ok && i < |inputs|
      invariant i <= |inputs| && g.Ready() && WellFormed(g.Meaning()) && (old(g.tidy) ==> g.tidy)
      invariant Lowers(a, g.Meaning())
      invariant ok ==> Went(a, a, g.Meaning(), pins, nets, g.pins, g.nets, {}, marked)
      invariant ok ==> forall k {:trigger inputs[k]} :: 0 <= k < i ==> inputs[k] in marked
      invariant !ok ==> Stops(a, inputs, neat)
    {
      if inputs[i] !in marked {
        ghost var mid, midPins, midNets, before := g.Meaning(), g.pins, g.nets, marked;
        WentOn(a, a, mid, pins, nets, midPins, midNets, {}, marked);
        InputReachable(a, inputs, i);
        ok, marked := Visit(g, inputs[i], a, inputs, neat, c0, marked);
        LowersTransitive(a, mid, g.Meaning());
        if ok { WentThen(a, a, mid, g.Meaning(), pins, nets, midPins, midNets, g.pins, g.nets, {}, before, marked); }
      }
      i := i + 1;
    }
    if ok {
      ok, marked := VisitConstants(g, inputs, a, pins, nets, neat, c0, marked);
      if ok { WentOn(a, a, g.Meaning(), pins, nets, g.pins, g.nets, {}, marked); }
    }
  }

  lemma {:induction false} InputReachable(a: NL, inputs: seq<nat>, i: nat)
    requires i < |inputs|
    ensures Reachable(a, inputs, inputs[i])
  {
    RootReachable(a, inputs, inputs[i]);
  }

  lemma {:induction false} ConstantReachable(a: NL, inputs: seq<nat>, e: nat)
    requires e == a.zero || e == a.one || e == a.pad
    ensures forall m: nat {:trigger ReadsNet(a.cells, m, e)} :: ReadsNet(a.cells, m, e) ==> Reachable(a, inputs, m)
  {
    hide ReadsNet, Reachable;
    forall m: nat {:trigger ReadsNet(a.cells, m, e)} | ReadsNet(a.cells, m, e) ensures Reachable(a, inputs, m) {
      RootReachable(a, inputs, m);
    }
  }

  /** The constant nets, after the inputs. */
  method VisitConstants(g: Netlist, ghost inputs: seq<nat>, ghost a: NL, ghost pins: seq<Pin>, ghost nets: seq<Net>,
                        ghost neat: bool, c0: nat, seen: set<nat>)
    returns (ok: bool, marked: set<nat>)
    requires g.Ready() && WellFormed(g.Meaning()) && AllMappable(a.cells) && c0 == |a.cells| && (neat ==> g.tidy)
    requires a.zero == g.zeroNet && a.one == g.oneNet && a.pad == g.padNet
    requires Went(a, a, g.Meaning(), pins, nets, g.pins, g.nets, {}, seen)
    requires forall k {:trigger inputs[k]} :: 0 <= k < |inputs| ==> inputs[k] in seen
    modifies g
    ensures g.Ready() && WellFormed(g.Meaning()) && (old(g.tidy) ==> g.tidy) && Lowers(a, g.Meaning())
    ensures ok ==> Went(a, a, g.Meaning(), pins, nets, g.pins, g.nets, {}, marked)
    ensures ok ==> forall m: nat {:trigger Root(a, inputs, m)} :: Root(a, inputs, m) ==> m in marked
    ensures !ok ==> Stops(a, inputs, neat)
  {
    hide Lowers, WellFormed, Went, Reachable, Mappable, Stops, AllMappable, ReadsNet, Kept;
    var consts := [g.zeroNet, g.oneNet, g.padNet];
    ok, marked := true, seen;
    WentOn(a, a, g.Meaning(), pins, nets, g.pins, g.nets, {}, marked);
    var k := 0;
    while ok && k < 3
      invariant k <= 3 && g.Ready() && WellFormed(g.Meaning()) && (old(g.tidy) ==> g.tidy) && Lowers(a, g.Meaning())
      invariant seen <= marked
      invariant ok ==> Went(a, a, g.Meaning(), pins, nets, g.pins, g.nets, {}, marked)
      invariant ok ==> forall l {:trigger consts[l]} :: 0 <= l < k ==> NetFed(a.cells, Some(consts[l]), marked)
      invariant !ok ==> Stops(a, inputs, neat)
    {
      ghost var mid, midPins, midNets, before := g.Meaning(), g.pins, g.nets, marked;
      WentOn(a, a, mid, pins, nets, midPins, midNets, {}, marked);
      ConstantReachable(a, inputs, consts[k]);
      ok, marked := VisitNet(g, consts[k], a, inputs, neat, c0, marked);
      LowersTransitive(a, mid, g.Meaning());
      if ok { WentThen(a, a, mid, g.Meaning(), pins, nets, midPins, midNets, g.pins, g.nets, {}, before, marked); }
      k := k + 1;
    }
    if ok {
      assert NetFed(a.cells, Some(consts[0]), marked) && NetFed(a.cells, Some(consts[1]), marked)
        && NetFed(a.cells, Some(consts[2]), marked);
    }
  }

  /** The whole pass. It keeps every run of the netlist. When it ends, every node that can be reached from the input
      nodes and the constant nets is mapped; on a tidy netlist it ends exactly when no such node is refused. */
  method PartialMapTop(g: Netlist, inputs: seq<nat>) returns (ok: bool)
    requires g.Ready() && WellFormed(g.Meaning()) && AllMappable(g.cells)
    requires forall i :: 0 <= i < |inputs| ==> inputs[i] < |g.cells|
    modifies g
    ensures g.Ready() && WellFormed(g.Meaning()) && (old(g.tidy) ==> g.tidy)
    ensures RunEquivalent(old(g.Meaning()), g.Meaning())
    ensures ok ==> forall k: nat {:trigger Reachable(old(g.Meaning()), inputs, k)} ::
      Reachable(old(g.Meaning()), inputs, k) ==>
      k < |old(g.cells)| && k < |g.cells| && Mapped(g.cells[k]) && !Refused(old(g.cells[k]))
    ensures !ok ==>
      exists k: nat :: k < |old(g.cells)| && Refused(old(g.cells[k])) && (old(g.tidy) ==>
        Reachable(old(g.Meaning()), inputs, k))
  {
    hide Lowers, WellFormed, Mappable, Refused, Mapped, RunEquivalent, Reachable, Root;
    ghost var a := g.Meaning();
    ghost var neat := g.tidy;
    ghost var marked: set<nat>;
    ok, marked := VisitRoots(g, inputs, a, neat);
    LoweringKeepsRuns(a, g.Meaning());
    if ok { ReachedAreMapped(a, inputs, g.cells, marked); }
  }

  lemma {:induction false} ReachedAreMapped(a: NL, inputs: seq<nat>, cells: seq<Cell>, marked: set<nat>)
    requires Progress(a, a.cells, cells, {}, marked)
    requires forall m: nat {:trigger Root(a, inputs, m)} :: Root(a, inputs, m) ==> m in marked
    ensures forall k: nat {:trigger Reachable(a, inputs, k)} :: Reachable(a, inputs, k) ==>
      k < |a.cells| && k < |cells| && Mapped(cells[k]) && !Refused(a.cells[k])
  {
    hide Feeds, Root, Mapped, Refused;
    forall k: nat {:trigger Reachable(a, inputs, k)} | Reachable(a, inputs, k)
      ensures k < |a.cells| && k < |cells| && Mapped(cells[k]) && !Refused(a.cells[k])
    {
      var path: seq<nat> :| Path(a, inputs, path) && path[|path| - 1] == k;
      ClosedHasAll(a, inputs, marked, path);
    }
  }
}
