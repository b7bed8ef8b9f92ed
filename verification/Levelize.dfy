/** levelize_forwards: the marking loops over a netlist. */
module Levelize {
  import opened Wrappers
  import opened Semantics
  import opened Netlists
  import opened Levels

  // ----- the fanouts of a net are exactly the input pins on it -----

  /** The slot the `k`-th fanout pin of a net sits in. */
  function FanSlot(pins: seq<Pin>, net: Net, k: nat): Option<Slot> {
    if k < |net.fanouts| && net.fanouts[k].Some? && net.fanouts[k].value < |pins|
      && pins[net.fanouts[k].value].node.Some? then
      Some((pins[net.fanouts[k].value].node.value, pins[net.fanouts[k].value].nodeIdx))
    else None
  }

  ghost function SlotsUpTo(pins: seq<Pin>, net: Net, k: nat): set<Slot> {
    set l: nat | l < k && FanSlot(pins, net, l).Some? :: FanSlot(pins, net, l).value
  }

  lemma {:induction false} FanSlotOk(g: Netlist, e: nat, k: nat)
    requires g.Ready() && g.tidy && e < |g.nets| && FanSlot(g.pins, g.nets[e], k).Some?
    ensures var (x, i) := FanSlot(g.pins, g.nets[e], k).value;
      x < |g.cells| && i < |g.cells[x].ins| && g.cells[x].ins[i] == Some(e)
    ensures FanSlot(g.pins, g.nets[e], k).value !in SlotsUpTo(g.pins, g.nets[e], k)
  {
    var p := g.nets[e].fanouts[k].value;
    var (x, i) := FanSlot(g.pins, g.nets[e], k).value;
    assert NetOk(g.nets[e], e, g.pins) && Seated(g.pins[p], p, g.nodes);
    assert NodeOk(g.nodes[x], g.pins, x, g.cells[x]);
    assert InSlotOk(g.nodes[x].inPins[i], g.pins, x, i, g.cells[x].ins[i]);
    forall l: nat | l < k && FanSlot(g.pins, g.nets[e], l).Some?
      ensures FanSlot(g.pins, g.nets[e], l).value != (x, i)
    {
      var q := g.nets[e].fanouts[l].value;
      assert Seated(g.pins[q], q, g.nodes);
    }
  }

  lemma {:induction false} SlotsComplete(g: Netlist, e: nat, x: nat, i: nat)
    requires g.Ready() && e < |g.nets| && x < |g.cells| && i < |g.cells[x].ins| && g.cells[x].ins[i] == Some(e)
    ensures (x, i) in SlotsUpTo(g.pins, g.nets[e], |g.nets[e].fanouts|)
  {
    assert NodeOk(g.nodes[x], g.pins, x, g.cells[x]);
    assert InSlotOk(g.nodes[x].inPins[i], g.pins, x, i, g.cells[x].ins[i]);
    var p := g.nodes[x].inPins[i].value;
    assert PinOk(g.pins[p], p, g.nets);
    assert FanSlot(g.pins, g.nets[e], g.pins[p].netIdx) == Some((x, i));
  }

  lemma {:induction false} DriversUnique(g: Netlist)
    requires g.Ready()
    ensures OneDriver(g.cells)
  {
    forall m, j, m', j' | SameNet(g.cells, m, j, m', j')
      ensures m == m' && j == j'
    {
      OutPinIs(g, m, j);
      OutPinIs(g, m', j');
    }
  }

  lemma {:induction false} OutPinIs(g: Netlist, m: nat, j: nat)
    requires g.Ready() && m < |g.cells| && j < |g.cells[m].outs| && g.cells[m].outs[j].Some?
    ensures j < |g.nodes[m].outPins| && g.nodes[m].outPins[j].Some? && g.nodes[m].outPins[j].value < |g.pins|
    ensures var p := g.nodes[m].outPins[j].value; var e := g.cells[m].outs[j].value;
      g.pins[p].net == Some(e) && e < |g.nets| && g.nets[e].driver == Some(p) && g.pins[p].node == Some(m)
        && g.pins[p].nodeIdx == j
  {
    assert NodeOk(g.nodes[m], g.pins, m, g.cells[m]);
    assert OutSlotOk(g.nodes[m].outPins[j], g.pins, m, j, g.cells[m].outs[j]);
    assert PinOk(g.pins[g.nodes[m].outPins[j].value], g.nodes[m].outPins[j].value, g.nets);
  }

  // ----- which slots the visited nodes feed -----

  ghost predicate Driven(cells: seq<Cell>, done: set<nat>, x: nat, i: nat) {
    exists m: nat, j: nat {:trigger Feeds(cells, m, j, x, i)} :: m in done && Feeds(cells, m, j, x, i)
  }

  /** The slots fed by the nodes of `done` and by the first `j` outputs of `m`. */
  ghost function DrivenUpTo(cells: seq<Cell>, done: set<nat>, m: nat, j: nat): set<Slot> {
    set x: nat, i: nat | x < |cells| && i < |cells[x].ins| && (Driven(cells, done, x, i) || exists l: nat ::
      l < j && Feeds(cells, m, l, x, i)) :: (x, i)
  }

  ghost function DrivenBy(cells: seq<Cell>, done: set<nat>): set<Slot> {
    set x: nat, i: nat | x < |cells| && i < |cells[x].ins| && Driven(cells, done, x, i) :: (x, i)
  }

  lemma {:induction false} NoOutputsYet(cells: seq<Cell>, done: set<nat>, m: nat)
    ensures DrivenUpTo(cells, done, m, 0) == DrivenBy(cells, done)
  {
  }

  lemma {:induction false} AllOutputs(cells: seq<Cell>, done: set<nat>, m: nat)
    requires m < |cells|
    ensures DrivenUpTo(cells, done, m, |cells[m].outs|) == DrivenBy(cells, done + {m})
  {
    forall x: nat, i: nat | x < |cells| && i < |cells[x].ins|
      ensures Driven(cells, done + {m}, x, i) <==>
        (Driven(cells, done, x, i) || exists l: nat :: l < |cells[m].outs| && Feeds(cells, m, l, x, i))
    {
      if Driven(cells, done + {m}, x, i) {
        var n: nat, j: nat :| n in done + {m} && Feeds(cells, n, j, x, i);
        assert n == m ==> j < |cells[m].outs|;
      }
    }
  }

  /** A net without consumers among the slots marked so far. */
  lemma {:induction false} UnconnectedOutput(cells: seq<Cell>, done: set<nat>, m: nat, j: nat)
    requires m < |cells| && j < |cells[m].outs| && cells[m].outs[j].None?
    ensures DrivenUpTo(cells, done, m, j + 1) == DrivenUpTo(cells, done, m, j)
  {
  }

  lemma {:induction false} OutputSlots(g: Netlist, done: set<nat>, m: nat, j: nat, e: nat)
    requires g.Ready() && g.tidy && m < |g.cells| && m !in done && j < |g.cells[m].outs|
    requires g.cells[m].outs[j] == Some(e) && e < |g.nets|
    ensures DrivenUpTo(g.cells, done, m, j + 1)
      == DrivenUpTo(g.cells, done, m, j) + SlotsUpTo(g.pins, g.nets[e], |g.nets[e].fanouts|)
    ensures DrivenUpTo(g.cells, done, m, j) * SlotsUpTo(g.pins, g.nets[e], |g.nets[e].fanouts|) == {}
  {
    var cells, all := g.cells, SlotsUpTo(g.pins, g.nets[e], |g.nets[e].fanouts|);
    DriversUnique(g);
    forall x: nat, i: nat
      ensures (x, i) in all <==> Feeds(cells, m, j, x, i)
    {
      if (x, i) in all {
        var l: nat :| l < |g.nets[e].fanouts| && FanSlot(g.pins, g.nets[e], l) == Some((x, i));
        FanSlotOk(g, e, l);
      }
      if Feeds(cells, m, j, x, i) { SlotsComplete(g, e, x, i); }
    }
    forall x: nat, i: nat | Feeds(cells, m, j, x, i)
      ensures !Driven(cells, done, x, i) && !exists l: nat :: l < j && Feeds(cells, m, l, x, i)
    {
      FedOnce(cells, done, m, j, x, i);
    }
    assert forall x: nat, i: nat :: (x, i) in DrivenUpTo(cells, done, m, j + 1) <==>
      (x, i) in DrivenUpTo(cells, done, m, j) + all;
  }

  lemma {:induction false} FedOnce(cells: seq<Cell>, done: set<nat>, m: nat, j: nat, x: nat, i: nat)
    requires OneDriver(cells) && m !in done && Feeds(cells, m, j, x, i)
    ensures !Driven(cells, done, x, i) && !exists l: nat :: l < j && Feeds(cells, m, l, x, i)
  {
    forall n: nat, l: nat | Feeds(cells, n, l, x, i) ensures n == m && l == j {
      assert SameNet(cells, m, j, n, l);
    }
  }

  // ----- the loops -----

  /** forward_level and node_data of every node, and the lists of the levels. */
  class Leveller {
    var forward: seq<int>
    var data: seq<Option<seq<int>>>
    var atLevel: seq<seq<nat>>

    /** No node is levelled, no visit data is left over. */
    constructor (nodes: nat)
      ensures forward == seq(nodes, _ => -1) && data == seq(nodes, _ => None) && atLevel == []
    {
      forward, data, atLevel := seq(nodes, _ => -1), seq(nodes, _ => None), [];
    }

    ghost predicate Ok(cells: seq<Cell>, sources: seq<nat>, marked: set<Slot>, cur: nat)
      reads this
    {
      Inv(cells, sources, forward, data, atLevel, marked, cur)
    }

    /** Levels up to `cur` are never touched again. */
    ghost predicate KeepsLists(before: seq<seq<nat>>, cur: nat)
      reads this
    {
      |atLevel| == |before| && forall l :: 0 <= l <= cur && l < |before| ==> atLevel[l] == before[l]
    }

    /** The loop that looks for a pin not yet visited. */
    method AllMarked(f: seq<int>) returns (all: bool)
      ensures all <==> AllVisited(f)
    {
      all := true;
      for idx := 0 to |f|
        invariant all && forall k :: 0 <= k < idx ==> f[k] != -1
      {
        if f[idx] == -1 { return false; }
      }
    }

    /** One fanout pin: its slot is marked, and its node is levelled if that was the last one. */
    method VisitFanout(g: Netlist, x: nat, i: nat, cur: nat, ghost sources: seq<nat>, ghost marked: set<Slot>,
                       ghost m: nat, ghost j: nat)
      requires g.Ready() && SourcesOk(g.cells, sources) && Ok(g.cells, sources, marked, cur)
      requires Feeds(g.cells, m, j, x, i) && (x, i) !in marked && forward[m] == cur
      modifies this
      ensures Ok(g.cells, sources, marked + {(x, i)}, cur) && KeepsLists(old(atLevel), cur) && forward[m] == cur
    {
      assert NodeOk(g.nodes[x], g.pins, x, g.cells[x]) && DataOk(g.cells, data, marked, cur, x);
      DriversUnique(g);
      ghost var forward0, data0, lists0 := forward, data, atLevel;
      var f := (if data[x].None? then Fresh(|g.nodes[x].inPins|) else data[x].value)[i := cur];
      data := data[x := Some(f)];
      MarkStep(g.cells, sources, forward0, data0, lists0, marked, cur, m, j, x, i, data, f);
      var all := AllMarked(f);
      if all && g.nodes[x].kind != FlipFlop {
        atLevel := atLevel[cur + 1 := atLevel[cur + 1] + [x]];
        forward := forward[x := cur + 1];
      }
    }

    /** All fanout pins of net `e`, which output pin `j` of `m` drives. */
    method VisitNet(g: Netlist, e: nat, cur: nat, ghost sources: seq<nat>, ghost marked: set<Slot>, ghost m: nat,
                    ghost j: nat)
      requires g.Ready() && g.tidy && e < |g.nets| && SourcesOk(g.cells, sources) && Ok(g.cells, sources, marked, cur)
      requires m < |g.cells| && j < |g.cells[m].outs| && g.cells[m].outs[j] == Some(e) && forward[m] == cur
      requires marked * SlotsUpTo(g.pins, g.nets[e], |g.nets[e].fanouts|) == {}
      modifies this
      ensures Ok(g.cells, sources, marked + SlotsUpTo(g.pins, g.nets[e], |g.nets[e].fanouts|), cur)
      ensures KeepsLists(old(atLevel), cur)
      ensures forward[m] == cur
    {
      var net := g.nets[e];
      assert marked + SlotsUpTo(g.pins, net, 0) == marked;
      for k := 0 to |net.fanouts|
        invariant Ok(g.cells, sources, marked + SlotsUpTo(g.pins, net, k), cur) && KeepsLists(old(atLevel), cur)
        invariant forward[m] == cur
      {
        ghost var now := marked + SlotsUpTo(g.pins, net, k);
        NextSlot(g.pins, net, k);
        if net.fanouts[k].Some? {
          var p := net.fanouts[k].value;
          assert NetOk(net, e, g.pins);
          if g.pins[p].node.Some? {
            var x, i := g.pins[p].node.value, g.pins[p].nodeIdx;
            assert FanSlot(g.pins, net, k) == Some((x, i));
            FanSlotOk(g, e, k);
            Apart(marked, SlotsUpTo(g.pins, net, |net.fanouts|), (x, i));
            VisitFanout(g, x, i, cur, sources, now, m, j);
            assert now + {(x, i)} == marked + SlotsUpTo(g.pins, net, k + 1);
          } else {
            assert FanSlot(g.pins, net, k) == None && now == marked + SlotsUpTo(g.pins, net, k + 1);
          }
        } else {
          assert FanSlot(g.pins, net, k) == None && now == marked + SlotsUpTo(g.pins, net, k + 1);
        }
      }
    }

    /** All output pins of node `m`. */
    method VisitNode(g: Netlist, m: nat, cur: nat, ghost sources: seq<nat>, ghost done: set<nat>)
      requires g.Ready() && g.tidy && m < |g.cells| && m !in done && SourcesOk(g.cells, sources)
      requires Ok(g.cells, sources, DrivenBy(g.cells, done), cur) && forward[m] == cur
      modifies this
      ensures Ok(g.cells, sources, DrivenBy(g.cells, done + {m}), cur) && KeepsLists(old(atLevel), cur)
    {
      g.EmptySlots(m);
      NoOutputsYet(g.cells, done, m);
      for j := 0 to |g.nodes[m].outPins|
        invariant Ok(g.cells, sources, DrivenUpTo(g.cells, done, m, j), cur) && KeepsLists(old(atLevel), cur)
        invariant forward[m] == cur
      {
        if g.nodes[m].outPins[j].Some? {
          OutPinIs(g, m, j);
          var e := g.pins[g.nodes[m].outPins[j].value].net.value;
          OutputSlots(g, done, m, j, e);
          VisitNet(g, e, cur, sources, DrivenUpTo(g.cells, done, m, j), m, j);
        } else {
          UnconnectedOutput(g.cells, done, m, j);
        }
      }
      AllOutputs(g.cells, done, m);
    }

    /** All nodes of level `cur`. */
    method VisitLevel(g: Netlist, cur: nat, ghost sources: seq<nat>)
      requires g.Ready() && g.tidy && SourcesOk(g.cells, sources) && |atLevel| == cur + 2
      requires Ok(g.cells, sources, DrivenBy(g.cells, Visited(atLevel, cur, 0)), cur)
      modifies this
      ensures |atLevel| == cur + 2
      ensures Ok(g.cells, sources, DrivenBy(g.cells, Visited(atLevel, cur, |atLevel[cur]|)), cur)
      ensures KeepsLists(old(atLevel), cur)
    {
      ghost var lists := atLevel;
      for i := 0 to |atLevel[cur]|
        invariant Ok(g.cells, sources, DrivenBy(g.cells, Visited(lists, cur, i)), cur) && KeepsLists(lists, cur)
      {
        VisitedStep(lists, atLevel, forward, cur, i);
        VisitNode(g, atLevel[cur][i], cur, sources, Visited(lists, cur, i));
      }
      SameVisited(lists, atLevel, cur, |atLevel[cur]|);
    }

    /** Inputs, constants and flip-flops make up level 0. */
    method StartLevels(g: Netlist, sources: seq<nat>)
      requires g.Ready() && SourcesOk(g.cells, sources)
      requires forward == seq(|g.cells|, _ => -1) && data == seq(|g.cells|, _ => None)
      modifies this
      ensures atLevel == [sources] && Inv(g.cells, sources, forward, data, [sources, []], {}, 0)
    {
      for i := 0 to |sources|
        invariant |forward| == |g.cells| && data == old(data)
        invariant forall x {:trigger forward[x]} :: 0 <= x < |forward| ==>
          forward[x] == if x in sources[..i] then 0 else -1
      {
        forward := forward[sources[i] := 0];
        assert sources[..i + 1] == sources[..i] + [sources[i]];
      }
      assert sources[..|sources|] == sources;
      atLevel := [sources];
      forall x | 0 <= x < |g.cells|
        ensures LevelOk(g.cells, sources, forward, data, {}, x) && DataOk(g.cells, data, {}, 0, x) {
        if g.cells[x].ins != [] { assert (x, 0) !in (var none: set<Slot> := {}; none); }
      }
    }

    /** The loop over the levels; it ends because every further level holds a node not listed before. */
    method LevelizeForwards(g: Netlist, sources: seq<nat>)
      requires g.Ready() && g.tidy && SourcesOk(g.cells, sources)
      requires forward == seq(|g.cells|, _ => -1) && data == seq(|g.cells|, _ => None)
      modifies this
      ensures Levelled(g.cells, sources, forward, atLevel) && LastEmpty(atLevel)
      ensures forall x :: 0 <= x < |g.cells| ==> |data| == |g.cells| && VisitDone(g.cells, forward, data, x)
    {
      hide ListOk, Listed;
      StartLevels(g, sources);
      var cur: nat, more := 0, true;
      NothingVisited(g.cells, sources);
      while more
        invariant |atLevel| == cur + 1 + (if more then 0 else 1)
        invariant more ==> Pending(g.cells, sources, forward, data, atLevel, cur)
        invariant !more ==> DataSettled(g.cells, sources, forward, data, atLevel, cur)
        invariant forall l :: 1 <= l <= cur ==> atLevel[l] != []
        decreases |g.cells| - |Listed(atLevel)|, more
      {
        ghost var before := atLevel;
        atLevel := atLevel + [[]];
        VisitLevel(g, cur, sources);
        ListedGrow(forward, before, atLevel, cur);
        if |atLevel[cur + 1]| > 0 {
          NextLevel(g.cells, sources, forward, data, atLevel, cur);
          cur := cur + 1;
        } else {
          more := false;
        }
      }
      FixedPoint(g.cells, sources, forward, data, atLevel, cur);
    }
  }

  /** The last list, and at most it and the first, is empty. */
  ghost predicate LastEmpty(lists: seq<seq<nat>>) {
    |lists| >= 2 && lists[|lists| - 1] == [] && forall l :: 1 <= l < |lists| - 1 ==> lists[l] != []
  }

  /** Level `cur` is known and about to be visited. */
  ghost predicate Pending(cells: seq<Cell>, sources: seq<nat>, forward: seq<int>, data: seq<Option<seq<int>>>,
                          atLevel: seq<seq<nat>>, cur: nat) {
    |atLevel| == cur + 1 && Inv(cells, sources, forward, data, atLevel + [[]],
      DrivenBy(cells, Visited(atLevel + [[]], cur, 0)), cur)
  }

  /** Level `cur` was visited and there is no further one. */
  ghost predicate DataSettled(cells: seq<Cell>, sources: seq<nat>, forward: seq<int>, data: seq<Option<seq<int>>>,
                          atLevel: seq<seq<nat>>, cur: nat) {
    && |atLevel| == cur + 2 && atLevel[cur + 1] == []
    && Inv(cells, sources, forward, data, atLevel, DrivenBy(cells, Visited(atLevel, cur, |atLevel[cur]|)), cur)
  }

  ghost function Listed(lists: seq<seq<nat>>): set<nat> {
    set l: nat, k: nat | l < |lists| && k < |lists[l]| :: lists[l][k]
  }

  lemma {:induction false} NothingVisited(cells: seq<Cell>, sources: seq<nat>)
    ensures [sources] + [[]] == [sources, []] && DrivenBy(cells, Visited([sources, []], 0, 0)) == {}
  {
    assert Visited([sources, []], 0, 0) == {};
  }

  lemma {:induction false} ListedBounded(forward: seq<int>, lists: seq<seq<nat>>, top: int)
    requires ListOk(forward, lists, top)
    ensures |Listed(lists)| <= |forward|
  {
    BoundedSet(Listed(lists), |forward|);
  }

  lemma {:induction false} SmallerSet(a: set<nat>, b: set<nat>)
    requires a <= b
    ensures |a| <= |b| && (a != b ==> |a| < |b|)
  {
    var rest := b - a;
    assert b == a + rest && a * rest == {};
  }

  /** A visit leaves the earlier lists alone, and a node of the new level was on none of them. */
  lemma {:induction false} ListedGrow(forward: seq<int>, before: seq<seq<nat>>, after: seq<seq<nat>>, cur: nat)
    requires |before| == cur + 1 && |after| == cur + 2 && (forall l :: 0 <= l <= cur ==> after[l] == (before + [[]])[l])
    requires ListOk(forward, after, cur + 1)
    ensures |Listed(before)| <= |Listed(after)| <= |forward|
    ensures after[cur + 1] != [] ==> |Listed(before)| < |Listed(after)|
  {
    assert forall l: nat, k: nat :: l <= cur && k < |before[l]| ==> after[l][k] == before[l][k];
    ListedBounded(forward, after, cur + 1);
    assert Listed(before) <= Listed(after);
    SmallerSet(Listed(before), Listed(after));
    if after[cur + 1] != [] {
      var x := after[cur + 1][0];
      assert x in Listed(after);
      forall l: nat, k: nat | l < |before| && k < |before[l]| ensures before[l][k] != x {
        assert forward[after[l][k]] == l;
      }
    }
  }

  lemma {:induction false} NextLevel(cells: seq<Cell>, sources: seq<nat>, forward: seq<int>,
                                     data: seq<Option<seq<int>>>, atLevel: seq<seq<nat>>, cur: nat)
    requires |atLevel| == cur + 2
    requires Inv(cells, sources, forward, data, atLevel, DrivenBy(cells, Visited(atLevel, cur, |atLevel[cur]|)), cur)
    ensures Pending(cells, sources, forward, data, atLevel, cur + 1)
  {
    var lists, marked := atLevel + [[]], DrivenBy(cells, Visited(atLevel, cur, |atLevel[cur]|));
    assert forall l: nat, k: nat :: l < |atLevel| && k < |atLevel[l]| ==> lists[l][k] == atLevel[l][k];
    forall x | x in Visited(atLevel, cur, |atLevel[cur]|) ensures x in Visited(lists, cur + 1, 0) {
      var l: nat, k: nat :| l < |atLevel| && k < |atLevel[l]| && (l < cur || (l == cur && k < |atLevel[cur]|))
        && atLevel[l][k] == x;
      assert lists[l][k] == x;
    }
    assert Visited(lists, cur + 1, 0) == Visited(atLevel, cur, |atLevel[cur]|);
    forall x {:trigger data[x]} | 0 <= x < |cells|
      ensures DataOk(cells, data, marked, cur + 1, x) { assert DataOk(cells, data, marked, cur, x); }
    forall x {:trigger forward[x]} | 0 <= x < |forward| && forward[x] >= 0
      ensures forward[x] < |lists| && x in lists[forward[x]] {
      assert atLevel[forward[x]] == lists[forward[x]];
    }
  }

  /** The visited nodes are all levelled ones. */
  lemma {:induction false} AllVisitedNodes(forward: seq<int>, atLevel: seq<seq<nat>>, cur: nat, m: nat)
    requires ListOk(forward, atLevel, cur + 1) && |atLevel| == cur + 2 && atLevel[cur + 1] == [] && m < |forward|
    ensures m in Visited(atLevel, cur, |atLevel[cur]|) <==> forward[m] >= 0
  {
    if forward[m] >= 0 {
      var l := forward[m];
      var k :| 0 <= k < |atLevel[l]| && atLevel[l][k] == m;
      assert l <= cur;
    }
  }

  lemma {:induction false} FedIff(cells: seq<Cell>, forward: seq<int>, atLevel: seq<seq<nat>>, cur: nat, x: nat, i: nat)
    requires ListOk(forward, atLevel, cur + 1) && |atLevel| == cur + 2 && atLevel[cur + 1] == [] && |forward| == |cells|
    requires x < |cells| && i < |cells[x].ins|
    ensures (x, i) in DrivenBy(cells, Visited(atLevel, cur, |atLevel[cur]|)) <==> Fed(cells, forward, x, i)
  {
    var done := Visited(atLevel, cur, |atLevel[cur]|);
    if Driven(cells, done, x, i) {
      var m: nat, j: nat :| m in done && Feeds(cells, m, j, x, i);
      AllVisitedNodes(forward, atLevel, cur, m);
    }
    if Fed(cells, forward, x, i) {
      var m: nat, j: nat :| Feeds(cells, m, j, x, i) && forward[m] >= 0;
      AllVisitedNodes(forward, atLevel, cur, m);
    }
  }

  lemma {:induction false} FixedPoint(cells: seq<Cell>, sources: seq<nat>, forward: seq<int>,
                                      data: seq<Option<seq<int>>>, atLevel: seq<seq<nat>>, cur: nat)
    requires DataSettled(cells, sources, forward, data, atLevel, cur)
    ensures Levelled(cells, sources, forward, atLevel)
    ensures |data| == |cells| && forall x :: 0 <= x < |cells| ==> VisitDone(cells, forward, data, x)
  {
    var marked := DrivenBy(cells, Visited(atLevel, cur, |atLevel[cur]|));
    forall x | 0 <= x < |cells| ensures NodeLevel(cells, sources, forward, x) && VisitDone(cells, forward, data, x) {
      assert LevelOk(cells, sources, forward, data, marked, x) && DataOk(cells, data, marked, cur, x);
      forall i: nat | i < |cells[x].ins| ensures (x, i) in marked <==> Fed(cells, forward, x, i) {
        FedIff(cells, forward, atLevel, cur, x, i);
      }
      if x !in sources && forward[x] != -1 { MarkedLevel(cells, forward, data, marked, x); }
    }
  }

  /** The highest mark is the level of the highest driver. */
  lemma {:induction false} MarkedLevel(cells: seq<Cell>, forward: seq<int>, data: seq<Option<seq<int>>>,
                                       marked: set<Slot>, x: nat)
    requires |cells| == |forward| == |data| && x < |cells| && MarksOk(cells, forward, data, marked)
    requires data[x].Some? && |data[x].value| == |cells[x].ins| && Above(data[x].value, forward[x])
    requires forall i: nat :: i < |cells[x].ins| ==> (x, i) in marked && Fed(cells, forward, x, i)
    ensures JustAbove(cells, forward, x)
  {
    forall m: nat, j: nat, i: nat {:trigger Feeds(cells, m, j, x, i)} | Feeds(cells, m, j, x, i)
      ensures 0 <= forward[m] < forward[x] {
      assert MarkIs(forward, data, m, x, i);
    }
    var i :| 0 <= i < |data[x].value| && data[x].value[i] == forward[x] - 1;
    assert Fed(cells, forward, x, i);
    var m: nat, j: nat :| Feeds(cells, m, j, x, i) && forward[m] >= 0;
    assert MarkIs(forward, data, m, x, i);
  }

  lemma {:induction false} Apart(a: set<Slot>, b: set<Slot>, s: Slot)
    requires a * b == {} && s in b
    ensures s !in a
  {
    assert s in a ==> s in a * b;
  }

  /** The nodes visited before position `i` of level `cur`. */
  ghost function Visited(lists: seq<seq<nat>>, cur: nat, i: nat): set<nat> {
    set l: nat, k: nat | l < |lists| && k < |lists[l]| && (l < cur || (l == cur && k < i)) :: lists[l][k]
  }

  lemma {:induction false} VisitedStep(lists: seq<seq<nat>>, now: seq<seq<nat>>, forward: seq<int>, cur: nat, i: nat)
    requires cur + 2 == |lists| == |now| && (forall l :: 0 <= l <= cur ==> now[l] == lists[l]) && i < |lists[cur]|
    requires ListOk(forward, now, cur + 1)
    ensures lists[cur][i] !in Visited(lists, cur, i) && forward[lists[cur][i]] == cur
    ensures Visited(lists, cur, i + 1) == Visited(lists, cur, i) + {lists[cur][i]}
  {
    var x := lists[cur][i];
    assert now[cur][i] == x;
    forall l: nat, k: nat | l < |lists| && k < |lists[l]| && (l < cur || (l == cur && k < i)) ensures lists[l][k] != x {
      assert now[l][k] == lists[l][k];
      if l == cur { assert now[cur][k] != now[cur][i]; }
    }
  }

  lemma {:induction false} SameVisited(lists: seq<seq<nat>>, now: seq<seq<nat>>, cur: nat, i: nat)
    requires cur + 2 == |lists| == |now| && (forall l :: 0 <= l <= cur ==> now[l] == lists[l])
    ensures Visited(now, cur, i) == Visited(lists, cur, i)
  {
    assert forall l: nat, k: nat :: l <= cur && k < |lists[l]| ==> now[l][k] == lists[l][k];
  }

  lemma {:induction false} NextSlot(pins: seq<Pin>, net: Net, k: nat)
    requires k < |net.fanouts|
    ensures SlotsUpTo(pins, net, k + 1)
      == SlotsUpTo(pins, net, k) + (if FanSlot(pins, net, k).Some? then {FanSlot(pins, net, k).value} else {})
    ensures SlotsUpTo(pins, net, k + 1) <= SlotsUpTo(pins, net, |net.fanouts|)
  {
    var l := SlotsUpTo(pins, net, k);
    forall s | s in SlotsUpTo(pins, net, k + 1)
      ensures s in l || (FanSlot(pins, net, k).Some? && s == FanSlot(pins, net, k).value) {
      var m: nat :| m < k + 1 && FanSlot(pins, net, m).Some? && s == FanSlot(pins, net, m).value;
      if m < k { assert s in l; }
    }
    forall s | s in l ensures s in SlotsUpTo(pins, net, k + 1) {
      var m: nat :| m < k && FanSlot(pins, net, m).Some? && s == FanSlot(pins, net, m).value;
      assert m < k + 1;
    }
    forall s | s in SlotsUpTo(pins, net, k + 1) ensures s in SlotsUpTo(pins, net, |net.fanouts|) {
      var m: nat :| m < k + 1 && FanSlot(pins, net, m).Some? && s == FanSlot(pins, net, m).value;
      assert m < |net.fanouts|;
    }
  }
}
