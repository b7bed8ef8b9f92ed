/** What the levels say about paths and cycles. */
module LevelPaths {
  import opened Wrappers
  import opened Semantics
  import opened Levels

  predicate SomeFeed(cells: seq<Cell>, m: nat, x: nat) {
    exists j: nat, i: nat ::
      j < |(if m < |cells| then cells[m].outs else [])| && i < |(if x < |cells| then cells[x].ins else [])|
        && Feeds(cells, m, j, x, i)
  }

  /** A walk along the wires that meets no source after its start. */
  ghost predicate Path(cells: seq<Cell>, sources: seq<nat>, p: seq<nat>) {
    && p != [] && (forall k :: 0 <= k < |p| ==> p[k] < |cells|)
    && forall k :: 0 < k < |p| ==> p[k] !in sources && SomeFeed(cells, p[k - 1], p[k])
  }

  ghost predicate EndsAt(p: seq<nat>, x: nat) {
    p != [] && p[|p| - 1] == x
  }

  /** No path into a levelled node is longer than its level. */
  lemma {:induction false} PathBound(cells: seq<Cell>, sources: seq<nat>, forward: seq<int>, atLevel: seq<seq<nat>>,
                                     p: seq<nat>, x: nat)
    requires Levelled(cells, sources, forward, atLevel) && Path(cells, sources, p) && EndsAt(p, x) && forward[x] >= 0
    ensures |p| <= forward[x] + 1
  {
    if |p| > 1 {
      var m, q := p[|p| - 2], p[..|p| - 1];
      assert NodeLevel(cells, sources, forward, x) && SomeFeed(cells, m, x);
      assert Path(cells, sources, q) by {
        forall k | 0 < k < |q|
          ensures q[k] !in sources && SomeFeed(cells, q[k - 1], q[k]) { assert q[k] == p[k] && q[k - 1] == p[k - 1]; }
      }
      var j: nat, i: nat :| Feeds(cells, m, j, x, i);
      PathBound(cells, sources, forward, atLevel, q, m);
    }
  }

  /** Some path from a source is as long as the level. */
  lemma {:induction false} LongestPath(cells: seq<Cell>, sources: seq<nat>, forward: seq<int>, atLevel: seq<seq<nat>>,
                                       x: nat) returns (p: seq<nat>)
    requires Levelled(cells, sources, forward, atLevel) && x < |cells| && forward[x] >= 0
    ensures Path(cells, sources, p) && EndsAt(p, x) && p[0] in sources && |p| == forward[x] + 1
    decreases forward[x]
  {
    assert NodeLevel(cells, sources, forward, x);
    if x in sources {
      p := [x];
    } else {
      var m: nat, j: nat, i: nat :| Feeds(cells, m, j, x, i) && forward[m] == forward[x] - 1;
      var q := LongestPath(cells, sources, forward, atLevel, m);
      p := q + [x];
      assert SomeFeed(cells, m, x);
    }
  }

  // ----- what keeps a node from being levelled -----

  /** A pin nothing drives, or no pin at all. */
  ghost predicate Open(cells: seq<Cell>, x: nat)
    requires x < |cells|
  {
    cells[x].ins == [] || exists i: nat :: i < |cells[x].ins| && Unfed(cells, x, i)
  }

  ghost predicate Unfed(cells: seq<Cell>, x: nat, i: nat) {
    forall m: nat, j: nat {:trigger Feeds(cells, m, j, x, i)} :: !Feeds(cells, m, j, x, i)
  }

  /** A walk against the wires, from a node to one of its drivers, off the sources. */
  ghost predicate BackWalk(cells: seq<Cell>, sources: seq<nat>, w: seq<nat>) {
    && w != [] && (forall k :: 0 <= k < |w| ==> w[k] < |cells| && w[k] !in sources)
    && forall k :: 0 < k < |w| ==> SomeFeed(cells, w[k], w[k - 1])
  }

  /** Going back from `x` one comes to an open node, or around a cycle without flip-flops. */
  ghost predicate Stuck(cells: seq<Cell>, sources: seq<nat>, x: nat) {
    exists w: seq<nat> {:trigger BackWalk(cells, sources, w)} ::
      BackWalk(cells, sources, w) && w[0] == x && DeadEnd(cells, w)
  }

  ghost predicate DeadEnd(cells: seq<Cell>, w: seq<nat>)
    requires w != [] && w[|w| - 1] < |cells|
  {
    Open(cells, w[|w| - 1]) || exists k :: 0 <= k < |w| - 1 && w[k] == w[|w| - 1]
  }

  /** Along a walk back from a levelled node the levels fall. */
  lemma {:induction false} LevelsFall(cells: seq<Cell>, sources: seq<nat>, forward: seq<int>, atLevel: seq<seq<nat>>,
                                      w: seq<nat>, k: nat, l: nat)
    requires Levelled(cells, sources, forward, atLevel) && OneDriver(cells) && BackWalk(cells, sources, w)
    requires forward[w[0]] >= 0
    requires k <= l < |w|
    ensures forward[w[l]] >= 0 && forward[w[l]] <= forward[w[k]] - (l - k)
    decreases l
  {
    if l > 0 {
      LevelsFall(cells, sources, forward, atLevel, w, if k < l then k else l - 1, l - 1);
      assert SomeFeed(cells, w[l], w[l - 1]) && NodeLevel(cells, sources, forward, w[l - 1]);
      var j: nat, i: nat :| Feeds(cells, w[l], j, w[l - 1], i);
    }
  }

  lemma {:induction false} LevelledNotStuck(cells: seq<Cell>, sources: seq<nat>, forward: seq<int>,
                                            atLevel: seq<seq<nat>>, x: nat)
    requires Levelled(cells, sources, forward, atLevel) && OneDriver(cells) && x < |cells| && forward[x] >= 0
    ensures !Stuck(cells, sources, x)
  {
    forall w: seq<nat> {:trigger BackWalk(cells, sources, w)} | BackWalk(cells, sources, w) && w[0] == x
      ensures !DeadEnd(cells, w) {
      var l := |w| - 1;
      LevelsFall(cells, sources, forward, atLevel, w, 0, l);
      forall k | 0 <= k < l ensures w[k] != w[l] {
        LevelsFall(cells, sources, forward, atLevel, w, k, l);
      }
      assert NodeLevel(cells, sources, forward, w[l]);
      forall i: nat | i < |cells[w[l]].ins| ensures !Unfed(cells, w[l], i) {
        assert Fed(cells, forward, w[l], i);
      }
    }
  }

  /** An unlevelled node that is not open has an unlevelled driver, which is no source. */
  lemma {:induction false} UnlevelledDriver(cells: seq<Cell>, sources: seq<nat>, forward: seq<int>,
                                            atLevel: seq<seq<nat>>, x: nat) returns (m: nat)
    requires Levelled(cells, sources, forward, atLevel) && x < |cells| && x !in sources && forward[x] < 0
    requires !Open(cells, x)
    ensures m < |cells| && SomeFeed(cells, m, x) && forward[m] < 0 && m !in sources
  {
    assert NodeLevel(cells, sources, forward, x) && forward[x] == -1;
    var i: nat :| i < |cells[x].ins| && !Fed(cells, forward, x, i);
    assert !Unfed(cells, x, i);
    var j: nat;
    m, j :| Feeds(cells, m, j, x, i);
    assert NodeLevel(cells, sources, forward, m);
  }

  /** Walking back from an unlevelled node for `n` steps, unless an open node comes first. */
  lemma {:induction false} WalkBack(cells: seq<Cell>, sources: seq<nat>, forward: seq<int>, atLevel: seq<seq<nat>>,
                                    x: nat, n: nat) returns (w: seq<nat>)
    requires Levelled(cells, sources, forward, atLevel) && x < |cells| && x !in sources && forward[x] < 0
    ensures BackWalk(cells, sources, w) && w[0] == x && |w| <= n + 1 && forward[w[|w| - 1]] < 0
    ensures |w| == n + 1 || Open(cells, w[|w| - 1])
  {
    if n == 0 {
      w := [x];
    } else {
      var v := WalkBack(cells, sources, forward, atLevel, x, n - 1);
      var y := v[|v| - 1];
      if Open(cells, y) {
        w := v;
      } else {
        var m := UnlevelledDriver(cells, sources, forward, atLevel, y);
        w := v + [m];
      }
    }
  }

  lemma {:induction false} Pigeonhole(w: seq<nat>, n: nat) returns (k: nat, l: nat)
    requires |w| == n + 1 && forall i :: 0 <= i < |w| ==> w[i] < n
    ensures k < l < |w| && w[k] == w[l]
  {
    if i, j :| 0 <= i < j < |w| && w[i] == w[j] {
      k, l := i, j;
    } else {
      SetOf(w, n);
      assert false;
    }
  }

  ghost function Entries(w: seq<nat>): set<nat> {
    set i: nat | i < |w| :: w[i]
  }

  lemma {:induction false} DistinctEntries(w: seq<nat>)
    requires forall i, j :: 0 <= i < j < |w| ==> w[i] != w[j]
    ensures |Entries(w)| == |w|
  {
    if w != [] {
      var v := w[..|w| - 1];
      DistinctEntries(v);
      assert forall i {:trigger v[i]} :: 0 <= i < |v| ==> v[i] == w[i];
      assert Entries(w) == Entries(v) + {w[|w| - 1]};
    }
  }

  /** Distinct numbers below `n` are at most `n`. */
  lemma {:induction false} SetOf(w: seq<nat>, n: nat)
    requires (forall i, j :: 0 <= i < j < |w| ==> w[i] != w[j]) && forall i :: 0 <= i < |w| ==> w[i] < n
    ensures |w| <= n
  {
    DistinctEntries(w);
    BoundedSet(Entries(w), n);
  }

  /** A node off the sources stays without a level exactly when it lies on or behind a cycle without flip-flops, or
      behind a pin that nothing drives. */
  lemma {:induction false} UnlevelledIffStuck(cells: seq<Cell>, sources: seq<nat>, forward: seq<int>,
                                              atLevel: seq<seq<nat>>, x: nat)
    requires Levelled(cells, sources, forward, atLevel) && OneDriver(cells) && x < |cells| && x !in sources
    ensures forward[x] == -1 <==> Stuck(cells, sources, x)
  {
    assert NodeLevel(cells, sources, forward, x);
    if forward[x] >= 0 {
      LevelledNotStuck(cells, sources, forward, atLevel, x);
    } else {
      var w := WalkBack(cells, sources, forward, atLevel, x, |cells|);
      if !Open(cells, w[|w| - 1]) {
        var k, l := Pigeonhole(w, |cells|);
        CutWalk(cells, sources, w, l);
        assert w[..l + 1][k] == w[..l + 1][l];
      }
    }
  }

  lemma {:induction false} CutWalk(cells: seq<Cell>, sources: seq<nat>, w: seq<nat>, l: nat)
    requires BackWalk(cells, sources, w) && l < |w|
    ensures BackWalk(cells, sources, w[..l + 1])
  {
    var v := w[..l + 1];
    forall k {:trigger v[k]} | 0 < k < |v|
      ensures SomeFeed(cells, v[k], v[k - 1]) { assert SomeFeed(cells, w[k], w[k - 1]); }
  }
}
