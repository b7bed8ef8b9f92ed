/** What the signal list of a lowered statement is, and what the AND-OR mux over such lists computes. */
module StatementLists {
  import opened Wrappers
  import opened Bits
  import opened Semantics
  import opened Runs
  import opened Netlists
  import opened RippleCells
  import opened Growth
  import opened Gates
  import opened Statements
  import opened Merging
  import opened MuxStatements
  import opened Controls

  function NetOf(pins: seq<Pin>, p: nat): nat {
    if p < |pins| && pins[p].net.Some? then pins[p].net.value else 0
  }

  function NetFn(pins: seq<Pin>): nat -> nat {
    (p: nat) => NetOf(pins, p)
  }

  /** A pin that sits nowhere and is on a net. */
  predicate Dangling(pins: seq<Pin>, p: nat) {
    p < |pins| && FreeIn(pins, p, pins[p].net)
  }

  ghost predicate PinsOnce(l: seq<Sig>) {
    forall i, j {:trigger l[i], l[j]} :: 0 <= i < j < |l| ==> l[i].pin != l[j].pin
  }

  /** A list as a lowered statement hands it on: its pins are new, all different, and sit nowhere. */
  ghost predicate Loose(pins: seq<Pin>, l: seq<Sig>, p0: nat) {
    PinsOnce(l) && forall i {:trigger l[i]} :: 0 <= i < |l| ==> p0 <= l[i].pin && Dangling(pins, l[i].pin)
  }

  /** The names are registers. */
  ghost predicate InScope(l: seq<Sig>, regs: map<nat, nat>) {
    forall i {:trigger l[i]} :: 0 <= i < |l| ==> l[i].name in regs
  }

  /** The value that stands in for an unassigned signal. */
  function HeldValue(scope: Scope, v: Valuation): nat -> bool {
    (x: nat) => v(scope.Implied(x))
  }

  /** Every pin whose name is assigned once per path carries the lowered value. */
  ghost predicate Carries(pins: seq<Pin>, l: seq<Sig>, s: Stmt, scope: Scope, v: Valuation) {
    forall i {:trigger l[i]} :: 0 <= i < |l| && Count(s, l[i].name) == 1 ==>
      Lowered(s, v, HeldValue(scope, v), l[i].name) == Some(v(NetOf(pins, l[i].pin)))
  }

  ghost predicate Counted(l: seq<Sig>, s: Stmt) {
    forall x {:trigger CountIn(l, x)} :: CountIn(l, x) == Count(s, x)
  }

  // ----- sorting keeps all of it -----

  lemma {:induction false} SameMembers(a: seq<Sig>, b: seq<Sig>, i: nat)
    requires multiset(a) == multiset(b) && i < |a|
    ensures exists j :: 0 <= j < |b| && b[j] == a[i]
  {
    assert a[i] in multiset(a);
    assert a[i] in b;
  }

  lemma {:induction false} ConsOnce(s: Sig, l: seq<Sig>)
    requires PinsOnce(l) && forall i {:trigger l[i]} :: 0 <= i < |l| ==> l[i].pin != s.pin
    ensures PinsOnce([s] + l)
  {
  }

  lemma {:induction false} InsertOnce(s: Sig, l: seq<Sig>)
    requires PinsOnce(l) && forall i {:trigger l[i]} :: 0 <= i < |l| ==> l[i].pin != s.pin
    ensures PinsOnce(Insert(s, l))
  {
    if l == [] || s.name <= l[0].name {
      ConsOnce(s, l);
    } else {
      var rest, r := l[1..], Insert(s, l[1..]);
      InsertOnce(s, rest);
      InsertIsPermutation(s, rest);
      forall i {:trigger r[i]} | 0 <= i < |r| ensures r[i].pin != l[0].pin {
        SameMembers(r, [s] + rest, i);
      }
      ConsOnce(l[0], r);
    }
  }

  lemma {:induction false} SortOnce(l: seq<Sig>)
    requires PinsOnce(l)
    ensures PinsOnce(Sort(l))
  {
    if l != [] {
      SortOnce(l[1..]);
      SortSorts(l[1..]);
      var r := Sort(l[1..]);
      forall i {:trigger r[i]} | 0 <= i < |r| ensures r[i].pin != l[0].pin {
        SameMembers(r, l[1..], i);
      }
      InsertOnce(l[0], r);
    }
  }

  lemma {:induction false} SortKeeps(pins: seq<Pin>, l: seq<Sig>, p0: nat, s: Stmt, regs: map<nat, nat>)
    requires Loose(pins, l, p0) && InScope(l, regs) && Counted(l, s)
    ensures Loose(pins, Sort(l), p0) && InScope(Sort(l), regs) && Counted(Sort(l), s) && Sorted(Sort(l))
  {
    var r := Sort(l);
    SortSorts(l);
    SortOnce(l);
    forall i {:trigger r[i]} | 0 <= i < |r| ensures p0 <= r[i].pin && Dangling(pins, r[i].pin) && r[i].name in regs {
      SameMembers(r, l, i);
    }
    forall x {:trigger CountIn(r, x)} ensures CountIn(r, x) == Count(s, x) {
      CountSort(l, x);
      assert CountIn(l, x) == Count(s, x);
    }
  }

  lemma {:induction false} SortCarries(pins: seq<Pin>, l: seq<Sig>, s: Stmt, scope: Scope, v: Valuation)
    requires Carries(pins, l, s, scope, v)
    ensures Carries(pins, Sort(l), s, scope, v)
  {
    var r := Sort(l);
    SortSorts(l);
    forall i {:trigger r[i]} | 0 <= i < |r| && Count(s, r[i].name) == 1
      ensures Lowered(s, v, HeldValue(scope, v), r[i].name) == Some(v(NetOf(pins, r[i].pin)))
    {
      SameMembers(r, l, i);
    }
  }

  // ----- what the grown mux computes -----

  function Joined<T>(blocks: seq<seq<T>>): seq<T> {
    if blocks == [] then [] else Joined(blocks[..|blocks| - 1]) + blocks[|blocks| - 1]
  }

  lemma {:induction false} OffsetJoined<T>(ports: seq<Port>, blocks: seq<seq<T>>, k: nat)
    requires |ports| == |blocks| && k <= |blocks| && forall i :: 0 <= i < |blocks| ==> ports[i].width == |blocks[i]|
    ensures Offset(ports, k) == |Joined(blocks[..k])|
  {
    if k > 0 {
      OffsetJoined(ports, blocks, k - 1);
      assert blocks[..k][..k - 1] == blocks[..k - 1];
    }
  }

  lemma {:induction false} BlockAt<T>(blocks: seq<seq<T>>, k: nat, lo: nat)
    requires k < |blocks| && lo == |Joined(blocks[..k])|
    ensures lo + |blocks[k]| <= |Joined(blocks)| && Joined(blocks)[lo..lo + |blocks[k]|] == blocks[k]
  {
    var l := |blocks| - 1;
    if k < l {
      assert blocks[..l][..k] == blocks[..k];
      BlockAt(blocks[..l], k, lo);
    }
  }

  /** A port is the block of slots it was given. */
  lemma {:induction false} PortOfJoined<T>(ports: seq<Port>, blocks: seq<seq<T>>, k: nat)
    requires |ports| == |blocks| && k < |blocks| && forall i :: 0 <= i < |blocks| ==> ports[i].width == |blocks[i]|
    ensures PortOf(ports, Joined(blocks), k) == blocks[k]
  {
    OffsetJoined(ports, blocks, k);
    BlockAt(blocks, k, Offset(ports, k));
  }

  /** The slots of the mux, port by port. */
  function RowBlocks(c: Cell, rows: seq<Row>, net: nat -> nat, scope: Scope): (r: seq<seq<Option<nat>>>)
    ensures |r| == |rows| + 1 && r[0] == c.ins
    ensures forall i {:trigger rows[i]} :: 0 <= i < |rows| ==>
      r[i + 1] == RowNets(rows[i], net, scope.Implied(rows[i].name))
  {
    if rows == [] then [c.ins]
    else
      var k := |rows| - 1;
      RowBlocks(c, rows[..k], net, scope) + [RowNets(rows[k], net, scope.Implied(rows[k].name))]
  }

  lemma {:induction false} JoinedAppend<T>(blocks: seq<seq<T>>, b: seq<T>)
    ensures Joined(blocks + [b]) == Joined(blocks) + b
  {
    assert (blocks + [b])[..|blocks|] == blocks;
  }

  lemma {:induction false} RowsJoined(c: Cell, rows: seq<Row>, net: nat -> nat, scope: Scope, e: nat, m: Cell)
    requires |c.inPorts| == 1 && c.inPorts[0].width == |c.ins| && m == WithRows(c, rows, net, scope, e)
    ensures m.ins == Joined(RowBlocks(c, rows, net, scope)) && |m.inPorts| == |rows| + 1
    ensures forall i :: 0 <= i < |m.inPorts| ==> m.inPorts[i].width == |RowBlocks(c, rows, net, scope)[i]|
  {
    if rows == [] {
      JoinedAppend([], c.ins);
      assert [] + [c.ins] == [c.ins] && [] + c.ins == c.ins;
    } else {
      var k := |rows| - 1;
      RowsJoined(c, rows[..k], net, scope, e, WithRows(c, rows[..k], net, scope, e));
      JoinedAppend(RowBlocks(c, rows[..k], net, scope), RowNets(rows[k], net, scope.Implied(rows[k].name)));
    }
  }

  lemma {:induction false} PortValue(ports: seq<Port>, s: seq<Option<nat>>, k: nat, v: Valuation)
    ensures PortOf(ports, Vals(s, v), k) == Vals(PortOf(ports, s, k), v)
  {
  }

  lemma {:induction false} MuxOutput(ports: seq<Port>, s: seq<bool>, w: nat, r: nat)
    requires r < w
    ensures |Outputs(MultiPortMux, ports, s, w)| == w
    ensures Outputs(MultiPortMux, ports, s, w)[r] == AndOr(PortOf(ports, s, 0), PortOf(ports, s, r + 1))
  {
  }

  lemma {:induction false} OutputHolds(m: Cell, r: nat, x: nat, v: Valuation, o: seq<bool>)
    requires Combinational(m.kind) && Holds(m, v) && o == Outputs(m.kind, m.inPorts, Vals(m.ins, v), |m.outs|)
    requires r < |m.outs| && r < |o| && m.outs[r] == Some(x)
    ensures v(x) == o[r]
  {
  }

  lemma {:induction false} MuxOutputIs(m: Cell, r: nat, x: nat, sel: seq<Option<nat>>, data: seq<Option<nat>>,
                                       v: Valuation)
    requires m.kind == MultiPortMux && r < |m.outs| && m.outs[r] == Some(x) && Holds(m, v)
    requires PortOf(m.inPorts, m.ins, 0) == sel && PortOf(m.inPorts, m.ins, r + 1) == data
    ensures v(x) == AndOr(Vals(sel, v), Vals(data, v))
  {
    PortValue(m.inPorts, m.ins, 0, v);
    PortValue(m.inPorts, m.ins, r + 1, v);
    MuxOutput(m.inPorts, Vals(m.ins, v), |m.outs|, r);
    OutputHolds(m, r, x, v, Outputs(MultiPortMux, m.inPorts, Vals(m.ins, v), |m.outs|));
  }

  lemma {:induction false} RowSlots(c: Cell, rows: seq<Row>, net: nat -> nat, scope: Scope, e: nat, r: nat, m: Cell,
                                    data: seq<Option<nat>>)
    requires |c.inPorts| == 1 && c.inPorts[0].width == |c.ins| && c.outs == [] && r < |rows|
    requires m == WithRows(c, rows, net, scope, e) && data == RowNets(rows[r], net, scope.Implied(rows[r].name))
    ensures m.kind == c.kind && r < |m.outs| && m.outs[r] == Some(e + r)
    ensures PortOf(m.inPorts, m.ins, 0) == c.ins && PortOf(m.inPorts, m.ins, r + 1) == data
  {
    var blocks := RowBlocks(c, rows, net, scope);
    RowsJoined(c, rows, net, scope, e, m);
    PortOfJoined(m.inPorts, blocks, 0);
    PortOfJoined(m.inPorts, blocks, r + 1);
  }

  /** Output `r` of the mux is the AND-OR of the selects and the nets of row `r`. */
  lemma {:induction false} MuxRow(c: Cell, rows: seq<Row>, net: nat -> nat, scope: Scope, e: nat, r: nat, m: Cell,
                                  v: Valuation,
                                  data: seq<Option<nat>>, x: nat)
    requires |c.inPorts| == 1 && c.inPorts[0].width == |c.ins| && c.kind == MultiPortMux && c.outs == [] && r < |rows|
    requires m == WithRows(c, rows, net, scope, e) && Holds(m, v)
    requires data == RowNets(rows[r], net, scope.Implied(rows[r].name)) && x == e + r
    ensures v(x) == AndOr(Vals(c.ins, v), Vals(data, v))
  {
    RowSlots(c, rows, net, scope, e, r, m, data);
    MuxOutputIs(m, r, x, c.ins, data, v);
  }

  // ----- a choice -----

  /** The sorted list of every branch, and what its pins carry. */
  ghost predicate BranchLists(s: Stmt, lists: seq<seq<Sig>>)
    requires IsChoice(s)
  {
    |lists| == Arity(s) && AllSorted(lists) && forall j {:trigger lists[j]} :: 0 <= j < |lists| ==>
      Counted(lists[j], Branch(s, j))
  }

  ghost predicate BranchesCarry(pins: seq<Pin>, s: Stmt, lists: seq<seq<Sig>>, scope: Scope, v: Valuation)
    requires IsChoice(s) && |lists| <= Arity(s)
  {
    forall j {:trigger lists[j]} :: 0 <= j < |lists| ==> Carries(pins, lists[j], Branch(s, j), scope, v)
  }

  lemma {:induction false} MostUpTo(lists: seq<seq<Sig>>, x: nat)
    requires lists != []
    ensures MostIn(lists, x) == Max(MostIn(lists[..|lists| - 1], x), CountIn(lists[|lists| - 1], x))
  {
    if |lists| > 1 {
      MostUpTo(lists[1..], x);
      assert lists[1..][..|lists| - 2] == lists[..|lists| - 1][1..];
    } else {
      assert lists[..0] == [] && lists[1..] == [];
    }
  }

  /** The rows of a choice count its names as the statement does. */
  lemma {:induction false} ChoiceCounts(s: Stmt, lists: seq<seq<Sig>>, n: nat, x: nat)
    requires IsChoice(s) && BranchLists(s, lists) && n <= |lists|
    ensures MostIn(lists[..n], x) == CountBranches(s, n, x)
  {
    if n > 0 {
      ChoiceCounts(s, lists, n - 1, x);
      MostUpTo(lists[..n], x);
      assert lists[..n][..n - 1] == lists[..n - 1];
      assert CountIn(lists[n - 1], x) == Count(Branch(s, n - 1), x);
    }
  }

  lemma {:induction false} FoundAt(l: seq<Sig>, x: nat)
    ensures Find(l, x).Some? ==> exists i :: 0 <= i < |l| && l[i] == Sig(x, Find(l, x).value)
    ensures Find(l, x).None? <==> CountIn(l, x) == 0
  {
    if l != [] && l[0].name != x {
      FoundAt(l[1..], x);
      if Find(l[1..], x).Some? {
        var i :| 0 <= i < |l[1..]| && l[1..][i] == Sig(x, Find(l[1..], x).value);
        assert l[i + 1] == Sig(x, Find(l, x).value);
      }
    } else if l != [] {
      assert l[0] == Sig(x, Find(l, x).value);
    }
  }

  /** Data pin `j` of a name carries what the mux of the statement sees there. */
  lemma {:induction false} DataPin(pins: seq<Pin>, s: Stmt, lists: seq<seq<Sig>>, scope: Scope, v: Valuation, x: nat,
                                   j: nat)
    requires IsChoice(s) && BranchLists(s, lists) && BranchesCarry(pins, s, lists, scope, v) && j < Arity(s)
    requires Count(s, x) == 1
    ensures v(RowNet(Find(lists[j], x), NetFn(pins), scope.Implied(x))) == MuxInput(s, v, HeldValue(scope, v), x, j)
  {
    var b, l := Branch(s, j), lists[j];
    FoundAt(l, x);
    assert CountIn(l, x) == Count(b, x);
    BranchCount(s, x, Arity(s), j);
    if Find(l, x).Some? {
      var i :| 0 <= i < |l| && l[i] == Sig(x, Find(l, x).value);
      assert Carries(pins, l, b, scope, v);
    } else {
      Unassigned(b, v, HeldValue(scope, v), x);
    }
  }

  /** The mux outputs of a choice carry its lowered values. */
  lemma {:induction false} ChoiceRow(pins: seq<Pin>, s: Stmt, lists: seq<seq<Sig>>, scope: Scope, v: Valuation,
                                     ctrl: seq<nat>, c: Cell, m: Cell, e: nat, r: nat)
    requires IsChoice(s) && BranchLists(s, lists) && BranchesCarry(pins, s, lists, scope, v) && Selects(s, v, ctrl)
    requires c.kind.MultiPortMux? && c.outs == [] && c.ins == Somes(ctrl) && c.inPorts == [Port(Plain, |ctrl|)]
    requires m == WithRows(c, Rows(lists), NetFn(pins), scope, e) && Holds(m, v)
    requires r < |Rows(lists)| && Count(s, Rows(lists)[r].name) == 1
    ensures Lowered(s, v, HeldValue(scope, v), Rows(lists)[r].name) == Some(v(e + r))
  {
    hide BranchLists, BranchesCarry, Selects, Rows, WithRows, Lowered, AndOr, Vals, Count, Holds, HeldValue, RowNets;
    var x := Rows(lists)[r].name;
    var row := RowNets(Rows(lists)[r], NetFn(pins), scope.Implied(x));
    MuxRow(c, Rows(lists), NetFn(pins), scope, e, r, m, v, row, e + r);
    ChoiceData(pins, s, lists, scope, v, ctrl, r, x, row, Vals(c.ins, v), Vals(row, v));
  }

  /** The selects and data nets of a row, combined, are the lowered value. */
  lemma {:induction false} ChoiceData(pins: seq<Pin>, s: Stmt, lists: seq<seq<Sig>>, scope: Scope, v: Valuation,
                                      ctrl: seq<nat>, r: nat, x: nat,
                                      row: seq<Option<nat>>, sel: seq<bool>, data: seq<bool>)
    requires IsChoice(s) && BranchLists(s, lists) && BranchesCarry(pins, s, lists, scope, v) && Selects(s, v, ctrl)
    requires r < |Rows(lists)| && x == Rows(lists)[r].name && Count(s, x) == 1
    requires row == RowNets(Rows(lists)[r], NetFn(pins), scope.Implied(x))
    requires sel == Vals(Somes(ctrl), v) && data == Vals(row, v)
    ensures Lowered(s, v, HeldValue(scope, v), x) == Some(AndOr(sel, data))
  {
    ChoiceCounts(s, lists, |lists|, x);
    assert lists[..|lists|] == lists;
    RowPicks(lists, x, r);
    RowData(pins, s, lists, scope, v, HeldValue(scope, v), x, ctrl, row, sel, data);
  }

  lemma {:induction false} RowData(pins: seq<Pin>, s: Stmt, lists: seq<seq<Sig>>, scope: Scope, v: Valuation,
                                   h: nat -> bool, x: nat, ctrl: seq<nat>,
                                   row: seq<Option<nat>>, sel: seq<bool>, data: seq<bool>)
    requires IsChoice(s) && BranchLists(s, lists) && BranchesCarry(pins, s, lists, scope, v) && Selects(s, v, ctrl)
    requires Count(s, x) == 1
    requires |row| == |lists|
    requires forall j :: 0 <= j < |lists| ==> row[j] == Some(RowNet(Find(lists[j], x), NetFn(pins), scope.Implied(x)))
    requires sel == Vals(Somes(ctrl), v) && data == Vals(row, v) && h == HeldValue(scope, v)
    ensures Lowered(s, v, h, x) == Some(AndOr(sel, data))
  {
    forall j {:trigger Select(s, v, j)} | 0 <= j < Arity(s)
      ensures sel[j] == Select(s, v, j) && data[j] == MuxInput(s, v, h, x, j)
    {
      assert Somes(ctrl)[j] == Some(ctrl[j]);
      DataPin(pins, s, lists, scope, v, x, j);
    }
    OneHot(s, v, h, x, sel, data);
  }

  lemma {:induction false} OneHot(s: Stmt, v: Valuation, h: nat -> bool, x: nat, sel: seq<bool>, data: seq<bool>)
    requires IsChoice(s) && |sel| == |data| == Arity(s) && Count(s, x) > 0
    requires forall j {:trigger Select(s, v, j)} :: 0 <= j < Arity(s) ==>
      sel[j] == Select(s, v, j) && data[j] == MuxInput(s, v, h, x, j)
    ensures Lowered(s, v, h, x) == Some(AndOr(sel, data))
  {
    if AndOr(sel, data) {
      var i :| 0 <= i < |sel| && sel[i] && data[i];
      assert Select(s, v, i);
    }
  }

}
