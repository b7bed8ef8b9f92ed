/** Why the sweeps of the activity estimation may run level by level: the levels put every driver first. */
module ActivityOrder {
  import opened Wrappers
  import opened Semantics
  import opened TruthTables
  import opened Levels
  import opened ActivityPass

  /** `nodes` is what the activity estimation sees of the levelled cells. */
  ghost predicate Describes(nodes: seq<ActNode>, cells: seq<Cell>, sources: seq<nat>, forward: seq<int>, x: nat)
    requires x < |nodes| == |cells| == |forward|
  {
    match nodes[x]
    case Function(table, ins) =>
      && TableOf(table, |ins|) && |ins| == |cells[x].ins| && x !in sources
      && forall i: nat {:trigger ins[i]} :: i < |ins| ==> Feeds(cells, ins[i], 0, x, i)
    case Output(d) => x !in sources && Feeds(cells, d, 0, x, 0)
    case Register(d) => d < |cells| && forward[d] >= 0
    case _ => true
  }

  lemma {:induction false} FlatMember(levels: seq<seq<nat>>, n: nat)
    ensures n in Flatten(levels) ==> exists l, k :: 0 <= l < |levels| && 0 <= k < |levels[l]| && levels[l][k] == n
    ensures (exists l, k :: 0 <= l < |levels| && 0 <= k < |levels[l]| && levels[l][k] == n) ==> n in Flatten(levels)
  {
    if levels != [] {
      var last, init := |levels| - 1, levels[..|levels| - 1];
      FlatMember(init, n);
      if n in Flatten(levels) && n !in Flatten(init) {
        var k :| 0 <= k < |levels[last]| && levels[last][k] == n;
      }
    }
  }

  /** Position `p` of the flattened levels lies on some level; everything on lower levels comes before it. */
  lemma {:induction false} FlatPosition(levels: seq<seq<nat>>, p: nat) returns (l: nat, k: nat)
    requires p < |Flatten(levels)|
    ensures l < |levels| && k < |levels[l]| && levels[l][k] == Flatten(levels)[p]
    ensures forall l', k' {:trigger levels[l'][k']} :: 0 <= l' < l && 0 <= k' < |levels[l']| ==>
      levels[l'][k'] in Flatten(levels)[..p]
    ensures p == |Flatten(levels[..l])| + k
  {
    var last := |levels| - 1;
    var init := levels[..last];
    var f := Flatten(init);
    if p < |f| {
      l, k := FlatPosition(init, p);
      assert init[..l] == levels[..l];
      assert Flatten(levels)[..p] == f[..p];
      forall l', k' {:trigger levels[l'][k']} | 0 <= l' < l && 0 <= k' < |levels[l']|
        ensures levels[l'][k'] in Flatten(levels)[..p] {
        assert init[l'][k'] in f[..p];
      }
    } else {
      l, k := last, p - |f|;
      forall l', k' {:trigger levels[l'][k']} | 0 <= l' < l && 0 <= k' < |levels[l']|
        ensures levels[l'][k'] in Flatten(levels)[..p] {
        assert init[l'][k'] == levels[l'][k'];
        FlatMember(init, levels[l'][k']);
        assert f <= Flatten(levels)[..p];
      }
    }
  }

  lemma {:induction false} FlatApart(forward: seq<int>, levels: seq<seq<nat>>, top: int, p: nat, q: nat)
    requires ListOk(forward, levels, top) && p < q < |Flatten(levels)|
    ensures Flatten(levels)[p] != Flatten(levels)[q]
  {
    var l, k := FlatPosition(levels, p);
    var l', k' := FlatPosition(levels, q);
    if l == l' { assert k < k'; }
    assert forward[levels[l][k]] == l && forward[levels[l'][k']] == l';
  }

  /** A levelled driver comes before what it drives. */
  lemma {:induction false} DriverFirst(cells: seq<Cell>, sources: seq<nat>, forward: seq<int>, levels: seq<seq<nat>>,
                                       p: nat, m: nat, j: nat, i: nat)
    requires Levelled(cells, sources, forward, levels) && p < |Flatten(levels)|
    requires var x := Flatten(levels)[p]; x !in sources && Feeds(cells, m, j, x, i)
    ensures m in Flatten(levels)[..p]
  {
    var l, k := FlatPosition(levels, p);
    var x := Flatten(levels)[p];
    assert forward[levels[l][k]] == l;
    assert NodeLevel(cells, sources, forward, x) && JustAbove(cells, forward, x);
    assert forward[m] < l && m in levels[forward[m]];
    var k' :| 0 <= k' < |levels[forward[m]]| && levels[forward[m]][k'] == m;
    assert levels[forward[m]][k'] in Flatten(levels)[..p];
  }

  /** The levels of a levelled netlist are an order the activity estimation can use. */
  lemma {:induction false} LevelsOrder(nodes: seq<ActNode>, cells: seq<Cell>, sources: seq<nat>, forward: seq<int>,
                                       levels: seq<seq<nat>>)
    requires Levelled(cells, sources, forward, levels) && |nodes| == |cells|
    requires forall x: nat :: x < |nodes| ==> Describes(nodes, cells, sources, forward, x)
    ensures Ordered(nodes, Flatten(levels))
  {
    var order := Flatten(levels);
    forall p, q {:trigger order[p], order[q]} | 0 <= p < q < |order| ensures order[p] != order[q] {
      FlatApart(forward, levels, |levels| - 1, p, q);
    }
    forall p {:trigger order[p]} | 0 <= p < |order| ensures InputsFirst(nodes, order, order[p], p) {
      var l, k := FlatPosition(levels, p);
      var x := order[p];
      assert forward[levels[l][k]] == l && x < |nodes|;
      assert Describes(nodes, cells, sources, forward, x);
      match nodes[x]
      case Function(table, ins) =>
        forall i {:trigger ins[i]} | 0 <= i < |ins| ensures ins[i] in order[..p] {
          assert Feeds(cells, ins[i], 0, x, i);
          DriverFirst(cells, sources, forward, levels, p, ins[i], 0, i);
        }
      case Output(d) => DriverFirst(cells, sources, forward, levels, p, d, 0, 0);
      case Register(d) =>
        assert d in levels[forward[d]];
        FlatMember(levels, d);
      case _ =>
    }
  }
}
