/** levelize_forwards_clean_checking_for_combo_loop_and_liveness: the visit data is checked and thrown away. */
module LevelClean {
  import opened Wrappers
  import opened Semantics
  import opened Netlists
  import opened Levels
  import opened LevelPaths
  import opened Levelize

  /** Data is as levelling left it, or it was complete and is gone. */
  ghost predicate Cleaning(before: seq<Option<seq<int>>>, now: seq<Option<seq<int>>>) {
    |before| == |now| && forall x {:trigger now[x]} :: 0 <= x < |now| ==>
      now[x] == before[x] || (now[x] == None && before[x].Some? && AllVisited(before[x].value))
  }

  ghost predicate CleanedBy(cells: seq<Cell>, now: seq<Option<seq<int>>>, m: nat, j: nat) {
    forall x: nat, i: nat {:trigger Feeds(cells, m, j, x, i)} :: Feeds(cells, m, j, x, i) ==>
      x < |now| && now[x] == None
  }

  /** What nodes of `done` feed has been cleaned. */
  ghost predicate CleanedFrom(cells: seq<Cell>, now: seq<Option<seq<int>>>, done: set<nat>) {
    forall m: nat, j: nat {:trigger CleanedBy(cells, now, m, j)} :: m in done ==> CleanedBy(cells, now, m, j)
  }

  /** A node some of whose pins, but not all, were visited. */
  ghost predicate Partial(data: seq<Option<seq<int>>>, x: nat) {
    x < |data| && data[x].Some? && !AllVisited(data[x].value)
  }

  ghost predicate StaysClean(before: seq<Option<seq<int>>>, now: seq<Option<seq<int>>>) {
    |before| == |now| && forall x :: 0 <= x < |now| && before[x] == None ==> now[x] == None
  }

  /** One fanout: its node's data is checked and dropped. */
  method CleanFanout(lv: Leveller, x: nat, ghost before: seq<Option<seq<int>>>) returns (ok: bool)
    requires x < |lv.data| && Cleaning(before, lv.data)
    modifies lv
    ensures lv.atLevel == old(lv.atLevel) && lv.forward == old(lv.forward) && StaysClean(old(lv.data), lv.data)
    ensures Cleaning(before, lv.data)
    ensures ok ==> lv.data[x] == None
    ensures !ok ==> Partial(before, x)
  {
    ok := true;
    if lv.data[x].Some? {
      ok := lv.AllMarked(lv.data[x].value);
      if ok { lv.data := lv.data[x := None]; }
    }
  }

  method CleanNet(g: Netlist, lv: Leveller, e: nat, ghost m: nat, ghost j: nat,
                  ghost before: seq<Option<seq<int>>>) returns (ok: bool)
    requires g.Ready() && g.tidy && e < |g.nets| && m < |g.cells| && j < |g.cells[m].outs|
    requires g.cells[m].outs[j] == Some(e)
    requires |lv.data| == |g.cells| && Cleaning(before, lv.data)
    modifies lv
    ensures lv.atLevel == old(lv.atLevel) && lv.forward == old(lv.forward) && StaysClean(old(lv.data), lv.data)
    ensures Cleaning(before, lv.data)
    ensures ok ==> CleanedBy(g.cells, lv.data, m, j)
    ensures !ok ==> exists x: nat :: Partial(before, x)
  {
    var net := g.nets[e];
    ok := true;
    for k := 0 to |net.fanouts|
      invariant lv.atLevel == old(lv.atLevel) && lv.forward == old(lv.forward) && StaysClean(old(lv.data), lv.data)
      invariant Cleaning(before, lv.data)
      invariant |lv.data| == |g.cells| && ok
      invariant forall l: nat {:trigger FanSlot(g.pins, net, l)} :: l < k && FanSlot(g.pins, net, l).Some? ==>
        FanSlot(g.pins, net, l).value.0 < |lv.data| && lv.data[FanSlot(g.pins, net, l).value.0] == None
    {
      assert NetOk(net, e, g.pins);
      if net.fanouts[k].Some? && g.pins[net.fanouts[k].value].node.Some? {
        var x := g.pins[net.fanouts[k].value].node.value;
        FanSlotOk(g, e, k);
        ok := CleanFanout(lv, x, before);
        if !ok { return; }
      }
    }
    forall x: nat, i: nat {:trigger Feeds(g.cells, m, j, x, i)} | Feeds(g.cells, m, j, x, i)
      ensures lv.data[x] == None {
      SlotsComplete(g, e, x, i);
      var l: nat :| l < |net.fanouts| && FanSlot(g.pins, net, l) == Some((x, i));
    }
  }

  lemma {:induction false} StillCleaned(cells: seq<Cell>, before: seq<Option<seq<int>>>, now: seq<Option<seq<int>>>,
                                        m: nat, j: nat)
    requires CleanedBy(cells, before, m, j) && StaysClean(before, now)
    ensures CleanedBy(cells, now, m, j)
  {
  }

  method CleanNode(g: Netlist, lv: Leveller, m: nat, ghost done: set<nat>,
                   ghost before: seq<Option<seq<int>>>) returns (ok: bool)
    requires g.Ready() && g.tidy && m < |g.cells| && |lv.data| == |g.cells| && Cleaning(before, lv.data)
    requires CleanedFrom(g.cells, lv.data, done)
    modifies lv
    ensures lv.atLevel == old(lv.atLevel) && lv.forward == old(lv.forward) && Cleaning(before, lv.data)
    ensures ok ==> CleanedFrom(g.cells, lv.data, done + {m})
    ensures !ok ==> exists x: nat :: Partial(before, x)
  {
    g.EmptySlots(m);
    ok := true;
    for j := 0 to |g.nodes[m].outPins|
      invariant lv.atLevel == old(lv.atLevel) && lv.forward == old(lv.forward) && Cleaning(before, lv.data)
      invariant |lv.data| == |g.cells| && ok
      invariant CleanedFrom(g.cells, lv.data, done)
      invariant forall l: nat {:trigger CleanedBy(g.cells, lv.data, m, l)} :: l < j ==>
        CleanedBy(g.cells, lv.data, m, l)
    {
      if g.nodes[m].outPins[j].Some? {
        OutPinIs(g, m, j);
        ghost var mid := lv.data;
        ok := CleanNet(g, lv, g.pins[g.nodes[m].outPins[j].value].net.value, m, j, before);
        if !ok { return; }
        forall n: nat, l: nat {:trigger CleanedBy(g.cells, lv.data, n, l)} | CleanedBy(g.cells, mid, n, l)
          ensures CleanedBy(g.cells, lv.data, n, l) {
          StillCleaned(g.cells, mid, lv.data, n, l);
        }
      }
    }
    forall l: nat {:trigger CleanedBy(g.cells, lv.data, m, l)} | l >= |g.cells[m].outs|
      ensures CleanedBy(g.cells, lv.data, m, l) {}
  }

  /** The nodes of one level. */
  method CleanLevel(g: Netlist, lv: Leveller, cur: nat, ghost sources: seq<nat>,
                    ghost before: seq<Option<seq<int>>>) returns (ok: bool)
    requires g.Ready() && g.tidy && Levelled(g.cells, sources, lv.forward, lv.atLevel) && cur + 1 < |lv.atLevel|
    requires |lv.data| == |g.cells| && Cleaning(before, lv.data)
    requires CleanedFrom(g.cells, lv.data, Visited(lv.atLevel, cur, 0))
    modifies lv
    ensures lv.atLevel == old(lv.atLevel) && lv.forward == old(lv.forward) && Cleaning(before, lv.data)
    ensures ok ==> CleanedFrom(g.cells, lv.data, Visited(lv.atLevel, cur + 1, 0))
    ensures !ok ==> exists x: nat :: Partial(before, x)
  {
    ok := true;
    for i := 0 to |lv.atLevel[cur]|
      invariant lv.atLevel == old(lv.atLevel) && lv.forward == old(lv.forward) && Cleaning(before, lv.data)
      invariant |lv.data| == |g.cells| && ok
      invariant CleanedFrom(g.cells, lv.data, Visited(lv.atLevel, cur, i))
    {
      VisitedNext(lv.atLevel, cur, i);
      ok := CleanNode(g, lv, lv.atLevel[cur][i], Visited(lv.atLevel, cur, i), before);
      if !ok { return; }
    }
    assert Visited(lv.atLevel, cur, |lv.atLevel[cur]|) == Visited(lv.atLevel, cur + 1, 0);
  }

  lemma {:induction false} VisitedNext(lists: seq<seq<nat>>, cur: nat, i: nat)
    requires cur < |lists| && i < |lists[cur]|
    ensures Visited(lists, cur, i + 1) == Visited(lists, cur, i) + {lists[cur][i]}
  {
  }

  /** The whole pass. It succeeds exactly when no node was reached on some of its pins only, and then nothing is
      left over. */
  method CleanForward(g: Netlist, lv: Leveller, ghost sources: seq<nat>) returns (ok: bool)
    requires g.Ready() && g.tidy && Levelled(g.cells, sources, lv.forward, lv.atLevel) && LastEmpty(lv.atLevel)
    requires |lv.data| == |g.cells| && forall x :: 0 <= x < |g.cells| ==> VisitDone(g.cells, lv.forward, lv.data, x)
    modifies lv
    ensures lv.atLevel == old(lv.atLevel) && lv.forward == old(lv.forward)
    ensures ok <==> forall x: nat {:trigger HalfFed(g.cells, lv.forward, x)} :: x < |g.cells| ==>
      !HalfFed(g.cells, lv.forward, x)
    ensures ok ==> forall x :: 0 <= x < |lv.data| ==> lv.data[x] == None
  {
    ghost var before := lv.data;
    var cur, more := 0, true;
    assert Visited(lv.atLevel, 0, 0) == {};
    while more
      invariant lv.atLevel == old(lv.atLevel) && lv.forward == old(lv.forward) && Cleaning(before, lv.data)
      invariant |lv.data| == |g.cells|
      invariant 0 <= cur && cur + 1 < |lv.atLevel|
      invariant more ==> CleanedFrom(g.cells, lv.data, Visited(lv.atLevel, cur, 0))
      invariant !more ==> CleanedFrom(g.cells, lv.data, Visited(lv.atLevel, cur + 1, 0)) && cur + 2 == |lv.atLevel|
      decreases |lv.atLevel| - cur, more
    {
      ok := CleanLevel(g, lv, cur, sources, before);
      if !ok {
        PartialIsHalfFed(g.cells, lv.forward, before);
        ghost var x: nat :| Partial(before, x);
        assert HalfFed(g.cells, lv.forward, x);
        return;
      }
      if |lv.atLevel[cur + 1]| > 0 {
        cur := cur + 1;
      } else {
        more := false;
      }
    }
    ok := true;
    AllCleaned(g.cells, sources, lv.forward, lv.atLevel, before, lv.data, cur);
  }

  /** Some pins are driven by levelled nodes and some are not. */
  ghost predicate HalfFed(cells: seq<Cell>, forward: seq<int>, x: nat) {
    && x < |cells| && (exists i: nat :: i < |cells[x].ins| && Fed(cells, forward, x, i))
    && exists i: nat :: i < |cells[x].ins| && !Fed(cells, forward, x, i)
  }

  lemma {:induction false} PartialIsHalfFed(cells: seq<Cell>, forward: seq<int>, data: seq<Option<seq<int>>>)
    requires |data| == |cells| && forall x :: 0 <= x < |cells| ==> VisitDone(cells, forward, data, x)
    ensures forall x: nat {:trigger HalfFed(cells, forward, x)} :: x < |cells| ==>
      (HalfFed(cells, forward, x) <==> Partial(data, x))
  {
    forall x: nat {:trigger HalfFed(cells, forward, x)} | x < |cells|
      ensures HalfFed(cells, forward, x) <==> Partial(data, x) {
      assert VisitDone(cells, forward, data, x);
      if Partial(data, x) {
        var i :| 0 <= i < |data[x].value| && data[x].value[i] != -1;
        var k :| 0 <= k < |data[x].value| && data[x].value[k] == -1;
        assert Fed(cells, forward, x, i) && !Fed(cells, forward, x, k);
      }
      if HalfFed(cells, forward, x) {
        var i: nat :| i < |cells[x].ins| && !Fed(cells, forward, x, i);
        var k: nat :| k < |cells[x].ins| && Fed(cells, forward, x, k);
        assert data[x].Some? && data[x].value[i] == -1;
      }
    }
  }

  lemma {:induction false} AllCleaned(cells: seq<Cell>, sources: seq<nat>, forward: seq<int>, atLevel: seq<seq<nat>>,
                                      before: seq<Option<seq<int>>>, now: seq<Option<seq<int>>>, cur: nat)
    requires Levelled(cells, sources, forward, atLevel) && cur + 2 == |atLevel| && atLevel[cur + 1] == []
    requires |before| == |cells| && (forall x :: 0 <= x < |cells| ==> VisitDone(cells, forward, before, x))
    requires Cleaning(before, now) && CleanedFrom(cells, now, Visited(atLevel, cur + 1, 0))
    ensures forall x: nat {:trigger HalfFed(cells, forward, x)} :: x < |cells| ==> !HalfFed(cells, forward, x)
    ensures forall x :: 0 <= x < |now| ==> now[x] == None
  {
    PartialIsHalfFed(cells, forward, before);
    assert Visited(atLevel, cur, |atLevel[cur]|) == Visited(atLevel, cur + 1, 0);
    forall x: nat | x < |now| ensures now[x] == None && !Partial(before, x) {
      assert VisitDone(cells, forward, before, x);
      if before[x].Some? {
        var i :| 0 <= i < |before[x].value| && before[x].value[i] != -1;
        assert Fed(cells, forward, x, i);
        var m: nat, j: nat :| Feeds(cells, m, j, x, i) && forward[m] >= 0;
        AllVisitedNodes(forward, atLevel, cur, m);
        assert CleanedBy(cells, now, m, j);
      }
    }
  }

  // ----- what the verdict means -----

  /** A walk along the wires leads from a source to `x`. */
  ghost predicate Driven(cells: seq<Cell>, sources: seq<nat>, x: nat) {
    exists p: seq<nat> {:trigger Path(cells, sources, p)} :: Path(cells, sources, p) && EndsAt(p, x) && p[0] in sources
  }

  /** An unlevelled node with a levelled driver is reached on some of its pins only. */
  lemma {:induction false} BehindLevelled(cells: seq<Cell>, sources: seq<nat>, forward: seq<int>,
                                          atLevel: seq<seq<nat>>, m: nat, y: nat)
    requires Levelled(cells, sources, forward, atLevel) && m < |cells| && y < |cells| && SomeFeed(cells, m, y)
    requires y !in sources
    requires forward[m] >= 0 && forward[y] < 0
    ensures HalfFed(cells, forward, y)
  {
    hide ListOk;
    var j: nat, i: nat :| Feeds(cells, m, j, y, i);
    assert Fed(cells, forward, y, i);
    assert NodeLevel(cells, sources, forward, y);
  }

  lemma {:induction false} SourceLevelled(cells: seq<Cell>, sources: seq<nat>, forward: seq<int>,
                                          atLevel: seq<seq<nat>>, s: nat)
    requires Levelled(cells, sources, forward, atLevel) && s in sources && s < |cells|
    ensures forward[s] == 0
  {
    assert NodeLevel(cells, sources, forward, s);
  }

  lemma {:induction false} PathPrefix(cells: seq<Cell>, sources: seq<nat>, p: seq<nat>)
    requires Path(cells, sources, p) && |p| > 1
    ensures Path(cells, sources, p[..|p| - 1])
    ensures SomeFeed(cells, p[|p| - 2], p[|p| - 1]) && p[|p| - 1] !in sources
  {
    hide SomeFeed;
    var q, k := p[..|p| - 1], |p| - 1;
    forall l {:trigger q[l]} | 0 < l < |q| ensures q[l] !in sources && SomeFeed(cells, q[l - 1], q[l]) {
      assert q[l] == p[l] && q[l - 1] == p[l - 1];
    }
    assert p[k] !in sources && SomeFeed(cells, p[k - 1], p[k]);
  }

  /** On the way from a source to an unlevelled node some node is reached on some of its pins only. */
  lemma {:induction false} FirstUnlevelled(cells: seq<Cell>, sources: seq<nat>, forward: seq<int>,
                                           atLevel: seq<seq<nat>>, p: seq<nat>) returns (y: nat)
    requires Levelled(cells, sources, forward, atLevel) && Path(cells, sources, p) && p[0] in sources
    requires forward[p[|p| - 1]] < 0
    ensures HalfFed(cells, forward, y)
  {
    hide SomeFeed, NodeLevel, HalfFed, ListOk;
    SourceLevelled(cells, sources, forward, atLevel, p[0]);
    PathPrefix(cells, sources, p);
    var q := p[..|p| - 1];
    if forward[q[|q| - 1]] < 0 {
      y := FirstUnlevelled(cells, sources, forward, atLevel, q);
    } else {
      y := p[|p| - 1];
      BehindLevelled(cells, sources, forward, atLevel, q[|q| - 1], y);
    }
  }

  /** A node off the sources that is reached on some pins only has no level, and a source drives it. */
  lemma {:induction false} HalfFedIsDriven(cells: seq<Cell>, sources: seq<nat>, forward: seq<int>,
                                           atLevel: seq<seq<nat>>, x: nat)
    requires Levelled(cells, sources, forward, atLevel) && HalfFed(cells, forward, x) && x !in sources
    ensures forward[x] == -1 && Driven(cells, sources, x)
  {
    assert NodeLevel(cells, sources, forward, x);
    var i: nat :| i < |cells[x].ins| && Fed(cells, forward, x, i);
    var m: nat, j: nat :| Feeds(cells, m, j, x, i) && forward[m] >= 0;
    var p := LongestPath(cells, sources, forward, atLevel, m);
    assert SomeFeed(cells, m, x);
    assert Path(cells, sources, p + [x]);
  }

  /** The clean-up objects exactly when a source drives a node that lies on or behind a cycle without flip-flops or
      an open pin, or when a flip-flop is reached on some of its pins only. */
  lemma {:induction false} VerdictIsStuck(cells: seq<Cell>, sources: seq<nat>, forward: seq<int>,
                                          atLevel: seq<seq<nat>>)
    requires Levelled(cells, sources, forward, atLevel) && OneDriver(cells)
    ensures (exists x: nat {:trigger HalfFed(cells, forward, x)} :: HalfFed(cells, forward, x)) <==>
      (exists x: nat {:trigger Stuck(cells, sources, x)} ::
        x < |cells| && x !in sources && Stuck(cells, sources, x) && Driven(cells, sources, x))
      || (exists x: nat {:trigger HalfFed(cells, forward, x)} :: x in sources && HalfFed(cells, forward, x))
  {
    hide HalfFed, Stuck, OneDriver, ListOk, Path;
    forall x: nat | HalfFed(cells, forward, x) && x !in sources
      ensures x < |cells| && Stuck(cells, sources, x) && Driven(cells, sources, x) {
      HalfFedInRange(cells, forward, x);
      HalfFedIsDriven(cells, sources, forward, atLevel, x);
      UnlevelledIffStuck(cells, sources, forward, atLevel, x);
    }
    forall x: nat | x < |cells| && x !in sources && Stuck(cells, sources, x) && Driven(cells, sources, x)
      ensures exists y: nat {:trigger HalfFed(cells, forward, y)} :: HalfFed(cells, forward, y)
    {
      UnlevelledIffStuck(cells, sources, forward, atLevel, x);
      var p: seq<nat> :| Path(cells, sources, p) && EndsAt(p, x) && p[0] in sources;
      var y := FirstUnlevelled(cells, sources, forward, atLevel, p);
    }
  }

  lemma {:induction false} HalfFedInRange(cells: seq<Cell>, forward: seq<int>, x: nat)
    requires HalfFed(cells, forward, x)
    ensures x < |cells|
  {
  }
}
