/** depth_first_traverse_check_if_forward_leveled, and the cleaning pass with its own check. */
module LevelCheck {
  import opened Wrappers
  import opened Semantics
  import opened Netlists
  import opened Levels
  import opened Levelize
  import opened LevelPaths

  /** `y` can be reached from `n` along the wires, flip-flops included. */
  ghost predicate Reaches(cells: seq<Cell>, n: nat, y: nat) {
    exists p: seq<nat> {:trigger Wires(cells, p)} :: Wires(cells, p) && p[0] == n && EndsAt(p, y)
  }

  ghost predicate Wires(cells: seq<Cell>, p: seq<nat>) {
    p != [] && p[0] < |cells| && forall k {:trigger p[k]} :: 0 < k < |p| ==> SomeFeed(cells, p[k - 1], p[k])
  }

  /** What the check objects to. */
  predicate Loop(cells: seq<Cell>, forward: seq<int>, z: nat) {
    z < |cells| && z < |forward| && forward[z] == -1 && !cells[z].kind.FlipFlop?
  }

  lemma {:induction false} ReachesSelf(cells: seq<Cell>, n: nat)
    requires n < |cells|
    ensures Reaches(cells, n, n)
  {
    assert Wires(cells, [n]) && EndsAt([n], n);
  }

  lemma {:induction false} ReachesOn(cells: seq<Cell>, n: nat, m: nat, x: nat, y: nat)
    requires n < |cells| && Reaches(cells, n, m) && SomeFeed(cells, m, x) && Reaches(cells, x, y)
    ensures Reaches(cells, n, y)
  {
    var p: seq<nat> :| Wires(cells, p) && p[0] == n && EndsAt(p, m);
    var q: seq<nat> :| Wires(cells, q) && q[0] == x && EndsAt(q, y);
    var r := p + q;
    forall k {:trigger r[k]} | 0 < k < |r| ensures SomeFeed(cells, r[k - 1], r[k]) {
      if k < |p| { assert p[k] == r[k]; } else if k > |p| { assert q[k - |p|] == r[k]; }
    }
    assert Wires(cells, r) && EndsAt(r, y);
  }

  /** Some wire reachable from `n` ends at a node the check objects to. */
  ghost predicate LoopBehind(cells: seq<Cell>, forward: seq<int>, n: nat) {
    exists y: nat, z: nat {:trigger SomeFeed(cells, y, z)} ::
      Reaches(cells, n, y) && SomeFeed(cells, y, z) && Loop(cells, forward, z)
  }

  ghost function Unmarked(visited: seq<bool>): set<nat> {
    set i: nat | i < |visited| && !visited[i]
  }

  lemma {:induction false} FewerUnmarked(before: seq<bool>, after: seq<bool>)
    requires |before| == |after| && forall i :: 0 <= i < |before| && before[i] ==> after[i]
    ensures |Unmarked(after)| <= |Unmarked(before)|
    ensures (exists i :: 0 <= i < |before| && !before[i] && after[i]) ==> |Unmarked(after)| < |Unmarked(before)|
  {
    SmallerSet(Unmarked(after), Unmarked(before));
    if i :| 0 <= i < |before| && !before[i] && after[i] {
      assert i in Unmarked(before) && i !in Unmarked(after);
    }
  }

  /** The nodes marked since `before` have only marked, harmless successors. */
  ghost predicate Closed(cells: seq<Cell>, forward: seq<int>, before: seq<bool>, after: seq<bool>) {
    && |before| == |after| == |cells|
    && (forall i :: 0 <= i < |before| && before[i] ==> after[i])
    && forall y: nat, z: nat {:trigger SomeFeed(cells, y, z)} ::
      y < |after| && after[y] && !before[y] && SomeFeed(cells, y, z) ==>
        z < |after| && after[z] && !Loop(cells, forward, z)
  }

  /** ... and all of them are reachable from `n`. */
  ghost predicate NewReached(cells: seq<Cell>, before: seq<bool>, after: seq<bool>, n: nat) {
    |before| == |after| && forall y: nat {:trigger after[y]} :: y < |after| && after[y] && !before[y] ==>
      Reaches(cells, n, y)
  }

  /** Closure for all new nodes but `n`, and for the outputs of `n` handled so far. */
  ghost predicate ClosedBut(cells: seq<Cell>, forward: seq<int>, before: seq<bool>, after: seq<bool>, n: nat) {
    && |before| == |after| == |cells|
    && (forall i :: 0 <= i < |before| && before[i] ==> after[i])
    && forall y: nat, z: nat {:trigger SomeFeed(cells, y, z)} ::
      y < |after| && after[y] && !before[y] && y != n && SomeFeed(cells, y, z) ==>
        z < |after| && after[z] && !Loop(cells, forward, z)
  }

  ghost predicate OutputDone(cells: seq<Cell>, forward: seq<int>, visited: seq<bool>, n: nat, j: nat) {
    forall x: nat, i: nat {:trigger Feeds(cells, n, j, x, i)} :: Feeds(cells, n, j, x, i) ==>
      x < |visited| && visited[x] && !Loop(cells, forward, x)
  }

  ghost predicate FanDone(g: Netlist, forward: seq<int>, visited: seq<bool>, e: nat, k: nat)
    reads g
    requires e < |g.nets|
  {
    forall l: nat {:trigger FanSlot(g.pins, g.nets[e], l)} :: l < k && FanSlot(g.pins, g.nets[e], l).Some? ==>
      var x := FanSlot(g.pins, g.nets[e], l).value.0;
      x < |visited| && visited[x] && !Loop(g.cells, forward, x)
  }

  class Checker {
    var visited: seq<bool>

    constructor (nodes: nat)
      ensures visited == seq(nodes, _ => false)
    {
      visited := seq(nodes, _ => false);
    }

    /** One fanout of `n`: the node it leads to is checked, then visited. */
    method VisitNext(g: Netlist, forward: seq<int>, n: nat, x: nat, ghost before: seq<bool>) returns (ok: bool)
      requires g.Ready() && g.tidy && |visited| == |forward| == |g.cells| && n < |g.cells| && visited[n]
      requires SomeFeed(g.cells, n, x) && x < |g.cells|
      requires ClosedBut(g.cells, forward, before, visited, n) && NewReached(g.cells, before, visited, n)
      modifies this
      ensures |visited| == |g.cells| && forall i :: 0 <= i < |visited| && old(visited)[i] ==> visited[i]
      ensures ok ==> visited[x] && !Loop(g.cells, forward, x)
      ensures ok ==> ClosedBut(g.cells, forward, before, visited, n) && NewReached(g.cells, before, visited, n)
      ensures !ok ==> LoopBehind(g.cells, forward, n)
      decreases |Unmarked(visited)|, 2
    {
      ReachesSelf(g.cells, n);
      assert NodeOk(g.nodes[x], g.pins, x, g.cells[x]);
      if forward[x] == -1 && g.nodes[x].kind != FlipFlop {
        return false;
      }
      ghost var mid := visited;
      ok := Visit(g, forward, x);
      if ok {
        forall y: nat {:trigger visited[y]} | y < |visited| && visited[y] && !before[y] ensures Reaches(g.cells, n, y) {
          if mid[y] { assert Reaches(g.cells, n, y); } else { ReachesOn(g.cells, n, n, x, y); }
        }
      } else {
        LoopBehindOn(g.cells, forward, n, x);
      }
    }

    /** The recursive traversal. */
    method Visit(g: Netlist, forward: seq<int>, n: nat) returns (ok: bool)
      requires g.Ready() && g.tidy && |visited| == |forward| == |g.cells| && n < |g.cells|
      modifies this
      ensures |visited| == |g.cells| && forall i :: 0 <= i < |visited| && old(visited)[i] ==> visited[i]
      ensures ok ==> visited[n] && Closed(g.cells, forward, old(visited), visited) && NewReached(g.cells, old(visited), visited, n)
      ensures !ok ==> LoopBehind(g.cells, forward, n)
      decreases |Unmarked(visited)|, 1
    {
      hide NodeBound, NetOk, NodeOk, LoopBehind;
      ghost var before := visited;
      if visited[n] {
        return true;
      }
      visited := visited[n := true];
      ReachesSelf(g.cells, n);
      g.EmptySlots(n);
      FewerUnmarked(before, visited);
      for j := 0 to |g.nodes[n].outPins|
        invariant |visited| == |g.cells| && (forall i :: 0 <= i < |visited| && before[i] ==> visited[i]) && visited[n]
        invariant |Unmarked(visited)| < |Unmarked(before)|
        invariant ClosedBut(g.cells, forward, before, visited, n) && NewReached(g.cells, before, visited, n)
        invariant forall l :: 0 <= l < j ==> OutputDone(g.cells, forward, visited, n, l)
      {
        if g.nodes[n].outPins[j].Some? {
          OutPinIs(g, n, j);
          var e := g.pins[g.nodes[n].outPins[j].value].net.value;
          ghost var mid := visited;
          ok := VisitFanouts(g, forward, n, j, e, before);
          if !ok { return; }
          FewerUnmarked(mid, visited);
          forall l | 0 <= l < j
            ensures OutputDone(g.cells, forward, visited, n, l) { assert OutputDone(g.cells, forward, mid, n, l); }
        }
      }
      ok := true;
      forall z: nat | SomeFeed(g.cells, n, z) ensures z < |visited| && visited[z] && !Loop(g.cells, forward, z) {
        var l: nat, i: nat :| Feeds(g.cells, n, l, z, i);
        assert OutputDone(g.cells, forward, visited, n, l);
      }
    }

    /** The fanouts of one output. */
    method VisitFanouts(g: Netlist, forward: seq<int>, n: nat, j: nat, e: nat,
                        ghost before: seq<bool>) returns (ok: bool)
      requires g.Ready() && g.tidy && |visited| == |forward| == |g.cells| && n < |g.cells| && visited[n]
      requires j < |g.cells[n].outs| && g.cells[n].outs[j] == Some(e) && e < |g.nets|
      requires ClosedBut(g.cells, forward, before, visited, n) && NewReached(g.cells, before, visited, n)
      modifies this
      ensures |visited| == |g.cells| && forall i :: 0 <= i < |visited| && old(visited)[i] ==> visited[i]
      ensures ok ==> OutputDone(g.cells, forward, visited, n, j)
      ensures ok ==> ClosedBut(g.cells, forward, before, visited, n) && NewReached(g.cells, before, visited, n)
      ensures !ok ==> LoopBehind(g.cells, forward, n)
      decreases |Unmarked(visited)|, 3
    {
      var net := g.nets[e];
      ghost var start := visited;
      for k := 0 to |net.fanouts|
        invariant |visited| == |g.cells| && (forall i :: 0 <= i < |visited| && start[i] ==> visited[i])
        invariant ClosedBut(g.cells, forward, before, visited, n) && NewReached(g.cells, before, visited, n)
        invariant FanDone(g, forward, visited, e, k)
      {
        assert NetOk(net, e, g.pins);
        if net.fanouts[k].Some? && g.pins[net.fanouts[k].value].node.Some? {
          var x := g.pins[net.fanouts[k].value].node.value;
          FanSlotOk(g, e, k);
          assert Feeds(g.cells, n, j, x, g.pins[net.fanouts[k].value].nodeIdx);
          ghost var mid := visited;
          FewerUnmarked(start, visited);
          ok := VisitNext(g, forward, n, x, before);
          if !ok { return; }
        }
      }
      ok := true;
      forall x: nat, i: nat {:trigger Feeds(g.cells, n, j, x, i)} | Feeds(g.cells, n, j, x, i)
        ensures visited[x] && !Loop(g.cells, forward, x) {
        SlotsComplete(g, e, x, i);
        var l: nat :| l < |net.fanouts| && FanSlot(g.pins, net, l) == Some((x, i));
      }
    }

    /** The traversal from all inputs and constants. It passes exactly when no node it objects to is reachable. */
    method CheckForward(g: Netlist, forward: seq<int>, roots: seq<nat>) returns (ok: bool)
      requires g.Ready() && g.tidy && |forward| == |g.cells| && visited == seq(|g.cells|, _ => false)
      requires forall r :: 0 <= r < |roots| ==> roots[r] < |g.cells|
      modifies this
      ensures ok <==> forall r :: 0 <= r < |roots| ==> !LoopBehind(g.cells, forward, roots[r])
    {
      ghost var none := visited;
      for r := 0 to |roots|
        invariant |visited| == |g.cells| && Closed(g.cells, forward, none, visited)
        invariant forall l :: 0 <= l < r ==> visited[roots[l]]
      {
        ghost var mid := visited;
        ok := Visit(g, forward, roots[r]);
        if !ok { return; }
        ClosedThen(g.cells, forward, none, mid, visited);
      }
      ok := true;
      forall r | 0 <= r < |roots| ensures !LoopBehind(g.cells, forward, roots[r]) {
        NoLoopBehind(g.cells, forward, none, visited, roots[r]);
      }
    }
  }

  lemma {:induction false} LoopBehindOn(cells: seq<Cell>, forward: seq<int>, n: nat, x: nat)
    requires n < |cells| && SomeFeed(cells, n, x) && LoopBehind(cells, forward, x)
    ensures LoopBehind(cells, forward, n)
  {
    var y: nat, z: nat :| Reaches(cells, x, y) && SomeFeed(cells, y, z) && Loop(cells, forward, z);
    ReachesSelf(cells, n);
    ReachesOn(cells, n, n, x, y);
  }

  lemma {:induction false} ClosedThen(cells: seq<Cell>, forward: seq<int>, a: seq<bool>, b: seq<bool>, c: seq<bool>)
    requires Closed(cells, forward, a, b) && Closed(cells, forward, b, c)
    ensures Closed(cells, forward, a, c)
  {
  }

  /** From a marked node only marked nodes can be reached. */
  lemma {:induction false} MarkedReach(cells: seq<Cell>, forward: seq<int>, none: seq<bool>, visited: seq<bool>,
                                       p: seq<nat>)
    requires Closed(cells, forward, none, visited) && (forall i :: 0 <= i < |none| ==> !none[i]) && Wires(cells, p)
    requires visited[p[0]]
    ensures p[|p| - 1] < |visited| && visited[p[|p| - 1]]
  {
    if |p| > 1 {
      var q := p[..|p| - 1];
      assert forall k {:trigger q[k]} :: 0 <= k < |q| ==> q[k] == p[k];
      MarkedReach(cells, forward, none, visited, q);
      assert SomeFeed(cells, p[|p| - 1 - 1], p[|p| - 1]);
    }
  }

  lemma {:induction false} NoLoopBehind(cells: seq<Cell>, forward: seq<int>, none: seq<bool>, visited: seq<bool>,
                                        r: nat)
    requires Closed(cells, forward, none, visited) && (forall i :: 0 <= i < |none| ==> !none[i]) && r < |visited|
    requires visited[r]
    ensures !LoopBehind(cells, forward, r)
  {
    forall y: nat, z: nat {:trigger SomeFeed(cells, y, z)} | Reaches(cells, r, y) && SomeFeed(cells, y, z)
      ensures !Loop(cells, forward, z) {
      var p: seq<nat> :| Wires(cells, p) && p[0] == r && EndsAt(p, y);
      MarkedReach(cells, forward, none, visited, p);
    }
  }

  /** After levelling, the check objects exactly to what lies on or behind a cycle or an open pin. */
  lemma {:induction false} LoopIsStuck(cells: seq<Cell>, sources: seq<nat>, forward: seq<int>, atLevel: seq<seq<nat>>,
                                       n: nat)
    requires Levelled(cells, sources, forward, atLevel) && OneDriver(cells) && SourcesOk(cells, sources)
    ensures LoopBehind(cells, forward, n) <==>
      exists y: nat, z: nat {:trigger SomeFeed(cells, y, z)} ::
        Reaches(cells, n, y) && SomeFeed(cells, y, z) && z < |cells| && z !in sources && Stuck(cells, sources, z)
  {
    forall y: nat, z: nat {:trigger SomeFeed(cells, y, z)} | SomeFeed(cells, y, z)
      ensures Loop(cells, forward, z) <==> z < |cells| && z !in sources && Stuck(cells, sources, z)
    {
      assert z < |cells| by { var j: nat, i: nat :| Feeds(cells, y, j, z, i); }
      assert NodeLevel(cells, sources, forward, z);
      if z !in sources { UnlevelledIffStuck(cells, sources, forward, atLevel, z); }
    }
  }
}
