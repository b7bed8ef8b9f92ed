/** Levels of a netlist: the graph, what a levelling means, and how it depends on cycles. */
module Levels {
  import opened Wrappers
  import opened Semantics

  /** Output pin `j` of `m` drives input pin `i` of `x`. */
  predicate Feeds(cells: seq<Cell>, m: nat, j: nat, x: nat, i: nat) {
    && m < |cells| && j < |cells[m].outs| && x < |cells| && i < |cells[x].ins|
    && cells[m].outs[j].Some? && cells[x].ins[i] == cells[m].outs[j]
  }

  predicate SameNet(cells: seq<Cell>, m: int, j: int, m': int, j': int) {
    && 0 <= m < |cells| && 0 <= j < |cells[m].outs| && 0 <= m' < |cells| && 0 <= j' < |cells[m'].outs|
    && cells[m].outs[j].Some? && cells[m].outs[j] == cells[m'].outs[j']
  }

  /** No net has two drivers. */
  ghost predicate OneDriver(cells: seq<Cell>) {
    forall m, j, m', j' ::
      SameNet(cells, m, j, m', j') ==> m == m' && j == j'
  }

  /** The nodes put on level 0: constants, inputs, and every flip-flop. */
  ghost predicate SourcesOk(cells: seq<Cell>, sources: seq<nat>) {
    && (forall k :: 0 <= k < |sources| ==>
      sources[k] < |cells| && (cells[sources[k]].kind.FlipFlop? || cells[sources[k]].ins == []))
    && (forall k, l :: 0 <= k < l < |sources| ==> sources[k] != sources[l])
    && (forall x :: 0 <= x < |cells| && cells[x].kind.FlipFlop? ==> x in sources)
  }

  // ----- what a levelling is -----

  /** The pin is driven by a levelled node. */
  ghost predicate Fed(cells: seq<Cell>, forward: seq<int>, x: nat, i: nat) {
    exists m: nat, j: nat {:trigger Feeds(cells, m, j, x, i)} ::
      Feeds(cells, m, j, x, i) && m < |forward| && forward[m] >= 0
  }

  /** One more than the highest driver. */
  ghost predicate JustAbove(cells: seq<Cell>, forward: seq<int>, x: nat)
    requires x < |cells| == |forward|
  {
    && (forall m: nat, j: nat, i: nat {:trigger Feeds(cells, m, j, x, i)} :: Feeds(cells, m, j, x, i) ==>
      0 <= forward[m] < forward[x])
    && exists m: nat, j: nat, i: nat {:trigger Feeds(cells, m, j, x, i)} ::
      Feeds(cells, m, j, x, i) && forward[m] == forward[x] - 1
  }

  /** All inputs come from levelled nodes. */
  ghost predicate DriversLevelled(cells: seq<Cell>, forward: seq<int>, x: nat)
    requires x < |cells|
  {
    cells[x].ins != [] && forall i: nat :: i < |cells[x].ins| ==> Fed(cells, forward, x, i)
  }

  ghost predicate NodeLevel(cells: seq<Cell>, sources: seq<nat>, forward: seq<int>, x: nat)
    requires x < |cells| == |forward|
  {
    if x in sources then forward[x] == 0
    else (forward[x] == -1 <==> !DriversLevelled(cells, forward, x)) && (forward[x] != -1 ==> JustAbove(cells, forward, x))
  }

  /** Every node is on no list, or on exactly one, once; its level is 0 or one more than its highest driver's. */
  ghost predicate Levelled(cells: seq<Cell>, sources: seq<nat>, forward: seq<int>, atLevel: seq<seq<nat>>) {
    && |forward| == |cells| && ListOk(forward, atLevel, |atLevel| - 1)
    && forall x :: 0 <= x < |cells| ==> NodeLevel(cells, sources, forward, x)
  }

  /** The visit data left behind: which pins levelled nodes drive. */
  ghost predicate VisitDone(cells: seq<Cell>, forward: seq<int>, data: seq<Option<seq<int>>>, x: nat)
    requires x < |cells| == |data|
  {
    match data[x]
    case None => forall i: nat :: i < |cells[x].ins| ==> !Fed(cells, forward, x, i)
    case Some(f) => |f| == |cells[x].ins| && (exists i ::
      0 <= i < |f| && f[i] != -1) && forall i: nat {:trigger f[i]} :: i < |f| ==>
        (f[i] != -1 <==> Fed(cells, forward, x, i))
  }

  type Slot = (nat, nat)

  ghost predicate Full(cells: seq<Cell>, marked: set<Slot>, x: nat)
    requires x < |cells|
  {
    cells[x].ins != [] && forall i :: 0 <= i < |cells[x].ins| ==> (x, i) in marked
  }

  /** The visit marks of a node: -1 for a pin not visited, else the level it was visited from. */
  ghost predicate DataOk(cells: seq<Cell>, data: seq<Option<seq<int>>>, marked: set<Slot>, cur: int, x: nat)
    requires x < |cells| == |data|
  {
    match data[x]
    case None => forall i :: 0 <= i < |cells[x].ins| ==> (x, i) !in marked
    case Some(f) =>
      && |f| == |cells[x].ins| && (exists i :: 0 <= i < |f| && f[i] != -1)
      && forall i {:trigger f[i]} {:trigger (x, i) in marked} :: 0 <= i < |f| ==>
        -1 <= f[i] <= cur && (f[i] != -1 <==> (x, i) in marked)
  }

  /** A node off the sources has a level when all its pins are visited: one more than the highest mark. */
  ghost predicate LevelOk(cells: seq<Cell>, sources: seq<nat>, forward: seq<int>, data: seq<Option<seq<int>>>,
                          marked: set<Slot>, x: nat)
    requires x < |cells| == |data| == |forward|
  {
    if x in sources then forward[x] == 0
    else
      && (forward[x] == -1 <==> !Full(cells, marked, x))
      && (forward[x] != -1 ==> data[x].Some? && Above(data[x].value, forward[x]))
  }

  /** `l` is one more than the maximum of `f`. */
  ghost predicate Above(f: seq<int>, l: int) {
    (forall i :: 0 <= i < |f| ==> f[i] < l) && exists i :: 0 <= i < |f| && f[i] == l - 1
  }

  /** Nodes are listed once, on their level. */
  ghost predicate ListOk(forward: seq<int>, atLevel: seq<seq<nat>>, top: int) {
    && (forall l, k {:trigger atLevel[l][k]} :: 0 <= l < |atLevel| && 0 <= k < |atLevel[l]| ==>
      atLevel[l][k] < |forward| && forward[atLevel[l][k]] == l)
    && (forall l, k, k' {:trigger atLevel[l][k], atLevel[l][k']} ::
      0 <= l < |atLevel| && 0 <= k < k' < |atLevel[l]| ==> atLevel[l][k] != atLevel[l][k'])
    && (forall x {:trigger forward[x]} :: 0 <= x < |forward| ==>
      -1 <= forward[x] <= top && (forward[x] >= 0 ==> forward[x] < |atLevel| && x in atLevel[forward[x]]))
  }

  ghost predicate Inv(cells: seq<Cell>, sources: seq<nat>, forward: seq<int>, data: seq<Option<seq<int>>>,
                      atLevel: seq<seq<nat>>, marked: set<Slot>, cur: nat) {
    && |cells| == |forward| == |data| && |atLevel| == cur + 2
    && ListOk(forward, atLevel, cur + 1)
    && (forall x :: 0 <= x < |cells| ==> DataOk(cells, data, marked, cur, x))
    && (forall x :: 0 <= x < |cells| ==> LevelOk(cells, sources, forward, data, marked, x))
    && (forall x, i {:trigger (x, i) in marked} :: (x, i) in marked ==> x < |cells| && i < |cells[x].ins|)
    && MarksOk(cells, forward, data, marked)
  }

  /** Each mark is the level of the node that drives the pin. */
  ghost predicate MarksOk(cells: seq<Cell>, forward: seq<int>, data: seq<Option<seq<int>>>, marked: set<Slot>) {
    forall m: nat, j: nat, x: nat, i: nat {:trigger Feeds(cells, m, j, x, i)} ::
      Feeds(cells, m, j, x, i) && (x, i) in marked ==> MarkIs(forward, data, m, x, i)
  }

  ghost predicate MarkIs(forward: seq<int>, data: seq<Option<seq<int>>>, m: nat, x: nat, i: nat) {
    m < |forward| && forward[m] >= 0 && x < |data| && data[x].Some? && i < |data[x].value|
      && data[x].value[i] == forward[m]
  }

  // ----- marking one slot -----

  function Fresh(width: nat): (f: seq<int>)
    ensures |f| == width && forall i :: 0 <= i < width ==> f[i] == -1
  {
    seq(width, _ => -1)
  }

  function MarkedData(cells: seq<Cell>, data: seq<Option<seq<int>>>, x: nat, i: nat, cur: int): (f: seq<int>)
    requires x < |cells| == |data| && i < |cells[x].ins|
    ensures |f| == |cells[x].ins|
  {
    (if data[x].Some? && |data[x].value| == |cells[x].ins| then data[x].value else Fresh(|cells[x].ins|))[i := cur]
  }

  /** All pins visited? */
  predicate AllVisited(f: seq<int>) {
    forall i :: 0 <= i < |f| ==> f[i] != -1
  }

  lemma {:induction false} MarkStep(cells: seq<Cell>, sources: seq<nat>, forward: seq<int>,
                                    data: seq<Option<seq<int>>>, atLevel: seq<seq<nat>>,
                                    marked: set<Slot>, cur: nat, m: nat, j: nat, x: nat, i: nat,
                                      data': seq<Option<seq<int>>>, f: seq<int>)
    requires Inv(cells, sources, forward, data, atLevel, marked, cur) && SourcesOk(cells, sources) && OneDriver(cells)
    requires Feeds(cells, m, j, x, i) && (x, i) !in marked && forward[m] == cur
    requires f == MarkedData(cells, data, x, i, cur) && data' == data[x := Some(f)]
    ensures AllVisited(f) <==> Full(cells, marked + {(x, i)}, x)
    ensures !(AllVisited(f) && !cells[x].kind.FlipFlop?) ==>
      Inv(cells, sources, forward, data', atLevel, marked + {(x, i)}, cur)
    ensures AllVisited(f) && !cells[x].kind.FlipFlop? ==>
      forward[x] == -1 && Inv(cells, sources, forward[x := cur + 1], data',
        atLevel[cur + 1 := atLevel[cur + 1] + [x]], marked + {(x, i)}, cur)
  {
    var marked' := marked + {(x, i)};
    assert DataOk(cells, data, marked, cur, x) && LevelOk(cells, sources, forward, data, marked, x);
    MarkedVisits(cells, data, marked, cur, x, i, f);
    DataStep(cells, data, marked, cur, x, i, data', f);
    SourceStep(cells, sources, forward, data, atLevel, marked, cur, x, i, data', f);
    MarksStep(cells, forward, data, marked, m, j, x, i, cur, data', f);
    if AllVisited(f) && !cells[x].kind.FlipFlop? {
      assert f[i] == cur && Above(f, cur + 1);
      ListStep(forward, atLevel, cur, x);
      var forward' := forward[x := cur + 1];
      forall y | 0 <= y < |cells| ensures LevelOk(cells, sources, forward', data', marked', y) {
        if y != x { assert LevelOk(cells, sources, forward, data', marked', y) && forward'[y] == forward[y]; }
      }
    }
  }

  lemma {:induction false} MarksStep(cells: seq<Cell>, forward: seq<int>, data: seq<Option<seq<int>>>,
                                     marked: set<Slot>, m: nat, j: nat, x: nat, i: nat,
                                     cur: nat, data': seq<Option<seq<int>>>, f: seq<int>)
    requires |cells| == |data| == |forward| && MarksOk(cells, forward, data, marked) && OneDriver(cells)
    requires Feeds(cells, m, j, x, i) && (x, i) !in marked && forward[m] == cur && DataOk(cells, data, marked, cur, x)
    requires f == MarkedData(cells, data, x, i, cur) && data' == data[x := Some(f)]
    ensures MarksOk(cells, forward, data', marked + {(x, i)})
    ensures forward[x] == -1 ==> MarksOk(cells, forward[x := cur + 1], data', marked + {(x, i)})
  {
    forall m': nat, j': nat, y: nat, k: nat {:trigger Feeds(cells, m', j', y, k)} |
      Feeds(cells, m', j', y, k) && (y, k) in marked + {(x, i)}
      ensures MarkIs(forward, data', m', y, k)
    {
      if y == x && k == i {
        assert SameNet(cells, m, j, m', j');
      } else {
        assert MarkIs(forward, data, m', y, k);
      }
    }
  }

  lemma {:induction false} MarkedVisits(cells: seq<Cell>, data: seq<Option<seq<int>>>, marked: set<Slot>, cur: nat,
                                        x: nat, i: nat, f: seq<int>)
    requires x < |cells| == |data| && i < |cells[x].ins| && DataOk(cells, data, marked, cur, x) && (x, i) !in marked
    requires f == MarkedData(cells, data, x, i, cur)
    ensures forall k :: 0 <= k < |f| ==> -1 <= f[k] <= cur && (f[k] != -1 <==> (x, k) in marked + {(x, i)})
    ensures AllVisited(f) <==> Full(cells, marked + {(x, i)}, x)
    ensures !Full(cells, marked, x)
  {
  }

  lemma {:induction false} DataStep(cells: seq<Cell>, data: seq<Option<seq<int>>>, marked: set<Slot>, cur: nat, x: nat,
                                    i: nat, data': seq<Option<seq<int>>>, f: seq<int>)
    requires x < |cells| == |data| && i < |cells[x].ins| && (x, i) !in marked
    requires forall y :: 0 <= y < |cells| ==> DataOk(cells, data, marked, cur, y)
    requires DataOk(cells, data, marked, cur, x) && f == MarkedData(cells, data, x, i, cur)
    requires data' == data[x := Some(f)]
    ensures forall y :: 0 <= y < |cells| ==> DataOk(cells, data', marked + {(x, i)}, cur, y)
  {
    assert DataOk(cells, data, marked, cur, x);
    MarkedVisits(cells, data, marked, cur, x, i, f);
    forall y | 0 <= y < |cells| ensures DataOk(cells, data', marked + {(x, i)}, cur, y) {
      assert DataOk(cells, data, marked, cur, y);
      assert y != x ==> data'[y] == data[y];
    }
  }

  lemma {:induction false} SourceStep(cells: seq<Cell>, sources: seq<nat>, forward: seq<int>,
                                      data: seq<Option<seq<int>>>, atLevel: seq<seq<nat>>,
                                      marked: set<Slot>, cur: nat, x: nat, i: nat, data': seq<Option<seq<int>>>,
                                        f: seq<int>)
    requires Inv(cells, sources, forward, data, atLevel, marked, cur) && SourcesOk(cells, sources)
    requires x < |cells| && i < |cells[x].ins| && (x, i) !in marked
    requires f == MarkedData(cells, data, x, i, cur) && data' == data[x := Some(f)]
    ensures x in sources <==> cells[x].kind.FlipFlop?
    ensures x !in sources ==> forward[x] == -1
    ensures forall y {:trigger LevelOk(cells, sources, forward, data', marked + {(x, i)}, y)} ::
      0 <= y < |cells| && (y != x || x in sources || !AllVisited(f)) ==>
        LevelOk(cells, sources, forward, data', marked + {(x, i)}, y)
  {
    MarkedVisits(cells, data, marked, cur, x, i, f);
    if x in sources {
      var k :| 0 <= k < |sources| && sources[k] == x;
    }
    assert LevelOk(cells, sources, forward, data, marked, x);
    forall y {:trigger LevelOk(cells, sources, forward, data', marked + {(x, i)}, y)}
      | 0 <= y < |cells| && (y != x || x in sources || !AllVisited(f))
      ensures LevelOk(cells, sources, forward, data', marked + {(x, i)}, y)
    {
      assert LevelOk(cells, sources, forward, data, marked, y);
      if y != x {
        assert Full(cells, marked + {(x, i)}, y) <==> Full(cells, marked, y);
      }
    }
  }

  lemma {:induction false} ListStep(forward: seq<int>, atLevel: seq<seq<nat>>, cur: nat, x: nat)
    requires ListOk(forward, atLevel, cur + 1) && |atLevel| == cur + 2 && x < |forward| && forward[x] == -1
    ensures ListOk(forward[x := cur + 1], atLevel[cur + 1 := atLevel[cur + 1] + [x]], cur + 1)
  {
    var f', a' := forward[x := cur + 1], atLevel[cur + 1 := atLevel[cur + 1] + [x]];
    forall y {:trigger f'[y]} | 0 <= y < |f'|
      ensures -1 <= f'[y] <= cur + 1 && (f'[y] >= 0 ==> f'[y] < |a'| && y in a'[f'[y]]) {
      if y == x {
        assert a'[cur + 1][|atLevel[cur + 1]|] == x;
      } else {
        assert f'[y] == forward[y];
        if forward[y] == cur + 1 {
          var k :| 0 <= k < |atLevel[cur + 1]| && atLevel[cur + 1][k] == y;
          assert a'[cur + 1][k] == y;
        }
      }
    }
  }

  lemma {:induction false} BoundedSet(s: set<nat>, n: nat)
    requires forall x :: x in s ==> x < n
    ensures |s| <= n
  {
    if n == 0 {
      assert s == {};
    } else {
      BoundedSet(s - {n - 1}, n - 1);
      assert s <= (s - {n - 1}) + {n - 1};
    }
  }
}
