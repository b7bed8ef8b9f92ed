/** The wiring shared by adders, subtractors and negation: operand pins and the carry chain. */
module RippleBuild {
  import opened Wrappers
  import opened Semantics
  import opened Runs
  import opened Netlists
  import opened RippleCells

  ghost predicate OnlyChanged(before: seq<Cell>, after: seq<Cell>, n: nat, s: nat, cy: nat) {
    && |before| == |after|
    && forall k :: 0 <= k < |before| && k != n && k != s && k != cy ==> after[k] == before[k]
  }

  ghost predicate OtherCells(before: seq<Cell>, after: seq<Cell>, n: nat) {
    && |before| <= |after|
    && forall k {:trigger before[k]} :: 0 <= k < |before| && k != n ==> after[k] == before[k]
  }

  predicate CellIs(cells: seq<Cell>, k: nat, c: Cell) {
    k < |cells| && cells[k] == c
  }

  /** One operand pin goes to the sum cell and, except in the last position, a copy to the carry cell. */
  method FeedOperand(g: Netlist, n: nat, src: nat, present: bool, s: nat, cy: nat, j: nat, withCarry: bool)
    requires g.Ready() && n != s && n != cy && s != cy && n < |g.cells|
    requires HasIn(g.cells, s, j) && HasIn(g.cells, cy, j)
    requires present ==> HasIn(g.cells, n, src) && g.cells[n].ins[src].Some?
    modifies g
    ensures g.Ready() && |g.nets| == |old(g.nets)|
    ensures OnlyChanged(old(g.cells), g.cells, n, s, cy)
    ensures g.cells[n] == if present then old(g.cells[n]).(ins := old(g.cells[n].ins)[src := None]) else old(g.cells[n])
    ensures var e := if present then old(g.cells[n].ins[src]) else Some(g.zeroNet);
      && g.cells[s] == old(g.cells[s]).(ins := old(g.cells[s].ins)[j := e])
      && g.cells[cy] == if withCarry then old(g.cells[cy]).(ins := old(g.cells[cy].ins)[j := e]) else old(g.cells[cy])
    ensures old(g.tidy) && old(g.cells[s].ins[j]) == None && old(g.cells[cy].ins[j]) == None ==> g.tidy
    ensures g.Fences(old(g.fence), old(g.fenced), old(g.fence).floor <= s && old(g.fence).floor <= cy)
  {
    if present {
      g.RemapInput(n, src, s, j);
      if withCarry { g.CopyInput(s, j, cy, j); }
    } else {
      g.AttachZero(s, j);
      if withCarry { g.AttachZero(cy, j); }
    }
  }

  /** The pin from output `from` to input `j` of the sum cell and, if asked, of the carry cell. */
  method FeedNet(g: Netlist, from: nat, s: nat, cy: nat, j: nat, both: bool)
    requires g.fence.floor <= s && (both ==> g.fence.floor <= cy)
    requires g.Ready() && HasOut(g.cells, from, 0) && HasIn(g.cells, s, j) && HasIn(g.cells, cy, j)
    requires from != s && from != cy && s != cy
    requires g.cells[from].outs == [None] && g.cells[s].ins[j] == None && g.cells[cy].ins[j] == None
    modifies g
    ensures g.Ready() && |g.nets| == |old(g.nets)| + 1 && g.Steady(old(g.fence), old(g.fenced), old(g.tidy))
    ensures OnlyChanged(old(g.cells), g.cells, from, s, cy)
    ensures var e := Some(|old(g.nets)|);
      && g.cells[from] == old(g.cells[from]).(outs := [e])
      && g.cells[s] == old(g.cells[s]).(ins := old(g.cells[s].ins)[j := e])
      && g.cells[cy] == if both then old(g.cells[cy]).(ins := old(g.cells[cy].ins)[j := e]) else old(g.cells[cy])
  {
    var e := g.ConnectNodes(from, 0, s, j);
    assert g.cells[from].outs == [Some(e)];
    if both {
      e := g.ConnectNodes(from, 0, cy, j);
    }
  }

  predicate Beyond(floor: nat, xs: seq<nat>) {
    forall i {:trigger xs[i]} :: 0 <= i < |xs| ==> floor <= xs[i]
  }

  /** Two lists of node ids without repetition. */
  ghost predicate Apart(xs: seq<nat>, ys: seq<nat>) {
    Distinct(xs) && Distinct(ys) && forall i, j :: 0 <= i < |xs| && 0 <= j < |ys| ==> xs[i] != ys[j]
  }

  ghost predicate Unlisted(k: nat, xs: seq<nat>, ys: seq<nat>) {
    (forall i :: 0 <= i < |xs| ==> xs[i] != k) && (forall i :: 0 <= i < |ys| ==> ys[i] != k)
  }

  /** Sum cells `sums` and carry cells `cys` have their operands, and carries where `i` positions were reached. */
  ghost predicate CarriesWired(cells: seq<Cell>, sums: seq<nat>, cys: seq<nat>, ch: Chain, i: nat)
    requires ch.Shaped() && |sums| == |ch.outs| && |cys| == |ch.carries|
  {
    && (forall j {:trigger sums[j]} :: 0 <= j < |sums| ==>
          CellIs(cells, sums[j],
            ThreeInput(AdderFunc, [if j < i then CarryIn(ch.cin, ch.carries, j) else None, ch.a[j], ch.b[j]],
                                            ch.outs[j])))
    && (forall j {:trigger cys[j]} :: 0 <= j < |cys| ==>
          CellIs(cells, cys[j],
            ThreeInput(CarryFunc, [if j < i then CarryIn(ch.cin, ch.carries, j) else None, ch.a[j], ch.b[j]],
                                           if j + 1 < i then Some(ch.carries[j]) else None)))
  }

  ghost predicate FrameLists(before: seq<Cell>, after: seq<Cell>, xs: seq<nat>, ys: seq<nat>) {
    |before| == |after| && forall k :: 0 <= k < |before| && Unlisted(k, xs, ys) ==> after[k] == before[k]
  }

  /** The last loop of all three: the carry out of each position to the carry in of the next. */
  method WireCarries(g: Netlist, ghost ch: Chain, sums: seq<nat>, cys: seq<nat>, w: nat, spare: nat)
    requires g.Ready() && ch.Shaped() && w == |ch.outs| == |sums| && |cys| == w - 1 && Apart(sums, cys)
    requires spare < |g.cells| && Unlisted(spare, sums, cys) && |g.cells[spare].ins| == 3
    requires g.cells[spare].ins[0] == None
    requires forall k :: 0 <= k < |ch.carries| ==> ch.carries[k] == |g.nets| + k
    requires CarriesWired(g.cells, sums, cys, ch, 1)
    requires Beyond(g.fence.floor, sums) && Beyond(g.fence.floor, cys)
    modifies g
    ensures g.Ready() && |g.nets| == |old(g.nets)| + w - 1 && g.Steady(old(g.fence), old(g.fenced), old(g.tidy))
    ensures FrameLists(old(g.cells), g.cells, sums, cys)
    ensures CarriesWired(g.cells, sums, cys, ch, w)
  {
    for i := 1 to w
      invariant g.Ready() && |g.nets| == |old(g.nets)| + i - 1 && g.Steady(old(g.fence), old(g.fenced), old(g.tidy))
      invariant FrameLists(old(g.cells), g.cells, sums, cys)
      invariant CarriesWired(g.cells, sums, cys, ch, i)
    {
      ghost var cells0 := g.cells;
      var cy := if i < w - 1 then cys[i] else spare;
      assert g.cells[cys[i - 1]].outs == [None] && g.cells[sums[i]].ins[0] == None;
      FeedNet(g, cys[i - 1], sums[i], cy, 0, i < w - 1);
      CarryStep(cells0, g.cells, sums, cys, ch, i, spare);
    }
  }

  lemma {:induction false} CarryStep(cells: seq<Cell>, cells': seq<Cell>, sums: seq<nat>, cys: seq<nat>, ch: Chain,
                                     i: nat, spare: nat)
    requires ch.Shaped() && |sums| == |ch.outs| && |cys| == |ch.carries| && Apart(sums, cys)
    requires Unlisted(spare, sums, cys)
    requires 0 < i < |ch.outs| && CarriesWired(cells, sums, cys, ch, i) && spare < |cells|
    requires OnlyChanged(cells, cells', cys[i - 1], sums[i], if i < |cys| then cys[i] else spare)
    requires cells'[spare] == cells[spare]
    requires HasIn(cells, sums[i], 0) && (i < |cys| ==> HasIn(cells, cys[i], 0))
    requires cells'[cys[i - 1]] == cells[cys[i - 1]].(outs := [Some(ch.carries[i - 1])])
    requires cells'[sums[i]] == cells[sums[i]].(ins := cells[sums[i]].ins[0 := Some(ch.carries[i - 1])])
    requires i < |cys| ==> cells'[cys[i]] == cells[cys[i]].(ins := cells[cys[i]].ins[0 := Some(ch.carries[i - 1])])
    ensures CarriesWired(cells', sums, cys, ch, i + 1)
    ensures FrameLists(cells, cells', sums, cys)
  {
    forall j {:trigger sums[j]} | 0 <= j < |sums|
      ensures j != i ==> cells'[sums[j]] == cells[sums[j]]
    {
    }
    forall j {:trigger cys[j]} | 0 <= j < |cys|
      ensures j != i && j != i - 1 ==> cells'[cys[j]] == cells[cys[j]]
    {
    }
  }
}
