/** Runs of a clocked netlist, and what it means for a pass to preserve them. */
module Runs {
  import opened Wrappers
  import opened Bits
  import opened Semantics

  ghost predicate FlipFlopStep(c: Cell, v: Valuation, v': Valuation) {
    |c.ins| == 2 && |c.outs| == 1 && c.outs[0].Some? ==>
      v'(c.outs[0].value) == if Edge(c.ins[1], v, v') then Val(c.ins[0], v) else v(c.outs[0].value)
  }

  /** The mapping names of one access port of a memory. */
  datatype Access = Access(addr: Role, we: Role, data: Role)

  function Accesses(kind: Kind): seq<Access> {
    if kind.SpMemory? then [Access(Addr, We, Data)]
    else [Access(Addr1, We1, Data1), Access(Addr2, We2, Data2)]
  }

  function Address(c: Cell, p: Access, v: Valuation): nat {
    ToNat(Vals(RoleSlots(c, p.addr), v))
  }

  predicate Enabled(c: Cell, p: Access, v: Valuation) {
    Val(First(RoleSlots(c, p.we)), v)
  }

  function DataBit(c: Cell, p: Access, v: Valuation, j: nat): bool {
    j < |RoleSlots(c, p.data)| && Val(RoleSlots(c, p.data)[j], v)
  }

  /** Is bit `j` of word `x` written through this port? */
  predicate Writes(c: Cell, p: Access, v: Valuation, x: nat, j: nat) {
    Enabled(c, p, v) && x == Address(c, p, v) && j < |RoleSlots(c, p.data)|
  }

  /** Contents after a clock edge on which the given ports wrote, one after the other. */
  function Written(c: Cell, ports: seq<Access>, v: Valuation, m: Mem, x: nat, j: nat): bool {
    if ports == [] then m(x, j)
    else
      var p := ports[|ports| - 1];
      if Writes(c, p, v, x, j) then DataBit(c, p, v, j) else Written(c, ports[..|ports| - 1], v, m, x, j)
  }

  function FirstOutWidth(c: Cell): nat {
    if c.outPorts == [] then 0 else c.outPorts[0]
  }

  /** Output `i` belongs to this access port, where it is this bit of the word. */
  function OutAccess(c: Cell, i: nat): (k: nat)
    ensures c.kind.SpMemory? || c.kind.DpMemory? ==> k < |Accesses(c.kind)|
  {
    if c.kind.SpMemory? || i < FirstOutWidth(c) then 0 else 1
  }

  function OutBit(c: Cell, i: nat): nat {
    if c.kind.SpMemory? || i < FirstOutWidth(c) then i else i - FirstOutWidth(c)
  }

  /** What output `i` reads at a clock edge: the old contents at its port's address. */
  function ReadOut(c: Cell, v: Valuation, m: Mem, i: nat): bool
    requires c.kind.SpMemory? || c.kind.DpMemory?
  {
    m(Address(c, Accesses(c.kind)[OutAccess(c, i)], v), OutBit(c, i))
  }

  function ClockOf(c: Cell): Option<nat> {
    First(RoleSlots(c, Clk))
  }

  ghost predicate MemoryStep(c: Cell, v: Valuation, v': Valuation, m: Mem, m': Mem)
    requires c.kind.SpMemory? || c.kind.DpMemory?
  {
    var edge := Edge(ClockOf(c), v, v');
    && (forall i :: 0 <= i < |c.outs| && c.outs[i].Some? ==>
          v'(c.outs[i].value) == if edge then ReadOut(c, v, m, i) else v(c.outs[i].value))
    && (forall x: nat, j: nat :: m'(x, j) == if edge then Written(c, Accesses(c.kind), v, m, x, j) else m(x, j))
  }

  ghost predicate CellStep(c: Cell, v: Valuation, v': Valuation, m: Mem, m': Mem) {
    match c.kind
    case FlipFlop => FlipFlopStep(c, v, v')
    case SpMemory => MemoryStep(c, v, v', m, m')
    case DpMemory => MemoryStep(c, v, v', m, m')
    case _ => true
  }

  /** The values of all nets over time, and the contents of every memory over time. */
  type Wave = nat -> Valuation
  type Store = (nat, nat) -> Mem

  ghost predicate Run(nl: NL, wave: Wave, store: Store) {
    && (forall t: nat :: Consistent(nl, wave(t)))
    && (forall t: nat, k: nat :: k < |nl.cells| ==>
          CellStep(nl.cells[k], wave(t), wave(t + 1), store(t, k), store(t + 1, k)))
  }

  ghost predicate WavesAgree(nets: nat, w: Wave, w': Wave) {
    forall t: nat :: AgreeBelow(nets, w(t), w'(t))
  }

  /** `nl` has a run with these values on its nets. */
  ghost predicate Shows(nl: NL, wave: Wave) {
    exists store: Store :: Run(nl, wave, store)
  }

  /** `nl` has a run with these values on the nets below `nets`. */
  ghost predicate ShowsBelow(nl: NL, nets: nat, wave: Wave) {
    exists wave': Wave :: WavesAgree(nets, wave, wave') && Shows(nl, wave')
  }

  /** Every run of `b` shows, on every net, a run of `a`. */
  ghost predicate Refines(b: NL, a: NL) {
    forall wave: Wave :: Shows(b, wave) ==> Shows(a, wave)
  }

  /** Every run of `a` is what some run of `b` shows on the nets of `a`. */
  ghost predicate Realizes(b: NL, a: NL) {
    forall wave: Wave :: Shows(a, wave) ==> ShowsBelow(b, a.nets, wave)
  }

  /** `b` may replace `a`: on the nets of `a` both have exactly the same behaviours. */
  ghost predicate RunEquivalent(a: NL, b: NL) {
    a.nets <= b.nets && Refines(b, a) && Realizes(b, a)
  }

  lemma {:induction false} RunEquivalentReflexive(a: NL)
    ensures RunEquivalent(a, a)
  {
    forall wave: Wave | Shows(a, wave)
      ensures ShowsBelow(a, a.nets, wave)
    {
      assert WavesAgree(a.nets, wave, wave);
    }
  }

  lemma {:induction false} RunEquivalentTransitive(a: NL, b: NL, c: NL)
    requires RunEquivalent(a, b) && RunEquivalent(b, c)
    ensures RunEquivalent(a, c)
  {
    RefinesTransitive(a, b, c);
    RealizesTransitive(a, b, c);
  }

  lemma {:induction false} RealizesTransitive(a: NL, b: NL, c: NL)
    requires a.nets <= b.nets && Realizes(b, a) && Realizes(c, b)
    ensures Realizes(c, a)
  {
    forall wave: Wave | Shows(a, wave)
      ensures ShowsBelow(c, a.nets, wave)
    {
      ShowsBelowTransitive(a.nets, b, c, wave);
    }
  }

  lemma {:induction false} RefinesTransitive(a: NL, b: NL, c: NL)
    requires Refines(b, a) && Refines(c, b)
    ensures Refines(c, a)
  {
    forall wave: Wave | Shows(c, wave)
      ensures Shows(a, wave)
    {
      assert Shows(b, wave);
    }
  }

  lemma {:induction false} ShowsBelowTransitive(nets: nat, b: NL, c: NL, wave: Wave)
    requires ShowsBelow(b, nets, wave) && nets <= b.nets && Realizes(c, b)
    ensures ShowsBelow(c, nets, wave)
  {
    var w: Wave :| WavesAgree(nets, wave, w) && Shows(b, w);
    assert ShowsBelow(c, b.nets, w);
    var w': Wave :| WavesAgree(b.nets, w, w') && Shows(c, w');
    WavesAgreeTransitive(nets, b.nets, wave, w, w');
  }

  lemma {:induction false} WavesAgreeTransitive(n: nat, n': nat, w: Wave, w': Wave, w'': Wave)
    requires n <= n' && WavesAgree(n, w, w') && WavesAgree(n', w', w'')
    ensures WavesAgree(n, w, w'')
  {
    forall t: nat
      ensures AgreeBelow(n, w(t), w''(t))
    {
      assert AgreeBelow(n, w(t), w'(t)) && AgreeBelow(n', w'(t), w''(t));
    }
  }

  // ----- combinational lowering -----

  ghost predicate Extends(a: NL, b: NL, v: Valuation) {
    exists w: Valuation :: AgreeBelow(a.nets, v, w) && Consistent(b, w)
  }

  ghost predicate SameSequential(a: NL, b: NL) {
    && |a.cells| <= |b.cells|
    && (forall k :: 0 <= k < |a.cells| ==>
          a.cells[k] == b.cells[k] || (Combinational(a.cells[k].kind) && Combinational(b.cells[k].kind)))
    && (forall k :: |a.cells| <= k < |b.cells| ==> Combinational(b.cells[k].kind))
  }

  /** The pass changed combinational cells only, and any valuation of the old nets satisfies the old netlist exactly
      when it extends to one that satisfies the new netlist. */
  ghost predicate Lowers(a: NL, b: NL) {
    && a.nets <= b.nets && a.zero == b.zero && a.one == b.one && a.pad == b.pad
    && SameSequential(a, b)
    && (forall v: Valuation :: Consistent(b, v) ==> Consistent(a, v))
    && (forall v: Valuation :: Consistent(a, v) ==> Extends(a, b, v))
  }

  lemma {:induction false} LowersReflexive(a: NL)
    ensures Lowers(a, a)
  {
    forall v: Valuation | Consistent(a, v)
      ensures Extends(a, a, v)
    {
      assert AgreeBelow(a.nets, v, v);
    }
  }

  lemma {:induction false} SameSequentialTransitive(a: NL, b: NL, c: NL)
    requires SameSequential(a, b) && SameSequential(b, c)
    ensures SameSequential(a, c)
  {
    forall k | 0 <= k < |a.cells|
      ensures a.cells[k] == c.cells[k] || (Combinational(a.cells[k].kind) && Combinational(c.cells[k].kind))
    {
      assert a.cells[k] == b.cells[k] || (Combinational(a.cells[k].kind) && Combinational(b.cells[k].kind));
      assert b.cells[k] == c.cells[k] || (Combinational(b.cells[k].kind) && Combinational(c.cells[k].kind));
    }
    forall k | |a.cells| <= k < |c.cells|
      ensures Combinational(c.cells[k].kind)
    {
      if k < |b.cells| {
        assert b.cells[k] == c.cells[k] || (Combinational(b.cells[k].kind) && Combinational(c.cells[k].kind));
      }
    }
  }

  lemma {:induction false} ExtendsTransitive(a: NL, b: NL, c: NL, v: Valuation)
    requires Extends(a, b, v) && a.nets <= b.nets
    requires forall w: Valuation :: Consistent(b, w) ==> Extends(b, c, w)
    ensures Extends(a, c, v)
  {
    var w: Valuation :| AgreeBelow(a.nets, v, w) && Consistent(b, w);
    assert Extends(b, c, w);
    var w': Valuation :| AgreeBelow(b.nets, w, w') && Consistent(c, w');
    assert AgreeBelow(a.nets, v, w');
  }

  lemma {:induction false} LowersTransitive(a: NL, b: NL, c: NL)
    requires Lowers(a, b) && Lowers(b, c)
    ensures Lowers(a, c)
  {
    SameSequentialTransitive(a, b, c);
    forall v: Valuation | Consistent(a, v)
      ensures Extends(a, c, v)
    {
      ExtendsTransitive(a, b, c, v);
    }
  }

  ghost function Extension(a: NL, b: NL, v: Valuation): (w: Valuation)
    requires Lowers(a, b)
    ensures Consistent(a, v) ==> AgreeBelow(a.nets, v, w) && Consistent(b, w)
  {
    if Consistent(a, v) then
      assert Extends(a, b, v);
      var w: Valuation :| AgreeBelow(a.nets, v, w) && Consistent(b, w);
      w
    else v
  }

  lemma {:induction false} SlotsAgree(s: seq<Option<nat>>, nets: nat, v: Valuation, w: Valuation)
    requires SlotsBelow(s, nets) && AgreeBelow(nets, v, w)
    ensures Vals(s, v) == Vals(s, w) && Val(First(s), v) == Val(First(s), w)
    ensures forall j: nat {:trigger s[j]} :: j < |s| ==> Val(s[j], v) == Val(s[j], w)
  {
  }

  lemma {:induction false} WrittenAgrees(c: Cell, ports: seq<Access>, v: Valuation, w: Valuation, m: Mem, x: nat,
                                         j: nat)
    requires forall role: Role {:trigger RoleSlots(c, role)} ::
      Vals(RoleSlots(c, role), v) == Vals(RoleSlots(c, role), w)
        && Val(First(RoleSlots(c, role)), v) == Val(First(RoleSlots(c, role)), w)
    ensures Written(c, ports, v, m, x, j) == Written(c, ports, w, m, x, j)
  {
    if ports != [] {
      var p := ports[|ports| - 1];
      WrittenAgrees(c, ports[..|ports| - 1], v, w, m, x, j);
      if j < |RoleSlots(c, p.data)| {
        assert Vals(RoleSlots(c, p.data), v)[j] == Vals(RoleSlots(c, p.data), w)[j];
      }
    }
  }

  lemma {:induction false} StepAgrees(nl: NL, k: nat, v: Valuation, v': Valuation, w: Valuation, w': Valuation, m: Mem,
                                      m': Mem)
    requires WellFormed(nl) && k < |nl.cells|
    requires AgreeBelow(nl.nets, v, w) && AgreeBelow(nl.nets, v', w')
    ensures CellStep(nl.cells[k], v, v', m, m') == CellStep(nl.cells[k], w, w', m, m')
  {
    var c := nl.cells[k];
    assert InRange(c, nl.nets);
    if c.kind.SpMemory? || c.kind.DpMemory? {
      forall role: Role
        ensures Vals(RoleSlots(c, role), v) == Vals(RoleSlots(c, role), w)
        ensures Val(First(RoleSlots(c, role)), v) == Val(First(RoleSlots(c, role)), w)
        ensures Val(First(RoleSlots(c, role)), v') == Val(First(RoleSlots(c, role)), w')
      {
        PortInRange(c, FindPort(c.inPorts, role), nl.nets);
        SlotsAgree(RoleSlots(c, role), nl.nets, v, w);
        SlotsAgree(RoleSlots(c, role), nl.nets, v', w');
      }
      forall x: nat, j: nat
        ensures Written(c, Accesses(c.kind), v, m, x, j) == Written(c, Accesses(c.kind), w, m, x, j)
      {
        WrittenAgrees(c, Accesses(c.kind), v, w, m, x, j);
      }
      assert Edge(ClockOf(c), v, v') == Edge(ClockOf(c), w, w');
    }
  }

  lemma {:induction false} PortInRange(c: Cell, k: nat, nets: nat)
    requires InRange(c, nets)
    ensures SlotsBelow(PortOf(c.inPorts, c.ins, k), nets)
  {
  }

  lemma {:induction false} LoweredRun(a: NL, b: NL, wave: Wave, store: Store)
    requires Lowers(a, b) && Run(b, wave, store)
    ensures Run(a, wave, store)
  {
    forall t: nat
      ensures Consistent(a, wave(t))
    {
      assert Consistent(b, wave(t));
    }
    forall t: nat, k: nat | k < |a.cells|
      ensures CellStep(a.cells[k], wave(t), wave(t + 1), store(t, k), store(t + 1, k))
    {
      CellStepLowered(a, b, k, wave(t), wave(t + 1), store(t, k), store(t + 1, k));
      assert CellStep(b.cells[k], wave(t), wave(t + 1), store(t, k), store(t + 1, k));
    }
  }

  lemma {:induction false} CellStepLowered(a: NL, b: NL, k: nat, v: Valuation, v': Valuation, m: Mem, m': Mem)
    requires SameSequential(a, b) && k < |b.cells|
    ensures k < |a.cells| ==> CellStep(a.cells[k], v, v', m, m') == CellStep(b.cells[k], v, v', m, m')
    ensures k >= |a.cells| ==> CellStep(b.cells[k], v, v', m, m')
  {
    if k < |a.cells| {
      assert a.cells[k] == b.cells[k] || (Combinational(a.cells[k].kind) && Combinational(b.cells[k].kind));
    }
  }

  lemma {:induction false} ExtendedRun(a: NL, b: NL, wave: Wave, store: Store, w: Wave)
    requires WellFormed(a) && SameSequential(a, b) && Run(a, wave, store)
    requires WavesAgree(a.nets, wave, w)
    requires forall t: nat :: Consistent(b, w(t))
    ensures Run(b, w, store)
  {
    forall t: nat, k: nat | k < |b.cells|
      ensures CellStep(b.cells[k], w(t), w(t + 1), store(t, k), store(t + 1, k))
    {
      CellStepLowered(a, b, k, w(t), w(t + 1), store(t, k), store(t + 1, k));
      if k < |a.cells| {
        assert CellStep(a.cells[k], wave(t), wave(t + 1), store(t, k), store(t + 1, k));
        assert AgreeBelow(a.nets, wave(t), w(t)) && AgreeBelow(a.nets, wave(t + 1), w(t + 1));
        StepAgrees(a, k, wave(t), wave(t + 1), w(t), w(t + 1), store(t, k), store(t + 1, k));
      }
    }
  }

  /** A combinational lowering preserves whole runs. */
  lemma {:induction false} LoweringKeepsRuns(a: NL, b: NL)
    requires WellFormed(a) && Lowers(a, b)
    ensures RunEquivalent(a, b)
  {
    hide AllHold;
    forall wave: Wave | Shows(b, wave)
      ensures Shows(a, wave)
    {
      var store :| Run(b, wave, store);
      LoweredRun(a, b, wave, store);
    }
    forall wave: Wave | Shows(a, wave)
      ensures ShowsBelow(b, a.nets, wave)
    {
      var store :| Run(a, wave, store);
      var w: Wave := (t: nat) => Extension(a, b, wave(t));
      forall t: nat
        ensures Consistent(b, w(t)) && AgreeBelow(a.nets, wave(t), w(t))
      {
        assert Consistent(a, wave(t));
      }
      ExtendedRun(a, b, wave, store, w);
      assert WavesAgree(a.nets, wave, w);
    }
  }

  // ----- replacing one cell by several -----

  /** Cells `extra`, driving fresh nets from `nets` on, do together what `c` does. */
  ghost predicate Implements(c: Cell, extra: seq<Cell>, zero: nat, one: nat, nets: nat) {
    && (forall v: Valuation :: Constants(zero, one, v) && AllHold(extra, v) ==> Holds(c, v))
    && (forall v: Valuation :: Constants(zero, one, v) && Holds(c, v) ==>
          exists w: Valuation :: AgreeBelow(nets, v, w) && AllHold(extra, w))
  }

  predicate Undriving(c: Cell) {
    Combinational(c.kind) && forall i :: 0 <= i < |c.outs| ==> c.outs[i].None?
  }

  lemma {:induction false} HoldsAgrees(c: Cell, nets: nat, v: Valuation, w: Valuation)
    requires InRange(c, nets) && AgreeBelow(nets, v, w)
    ensures Holds(c, v) == Holds(c, w)
  {
    assert Vals(c.ins, v) == Vals(c.ins, w);
  }

  lemma {:induction false} ReplaceCell(a: NL, n: nat, dead: Cell, extra: seq<Cell>, b: NL)
    requires WellFormed(a) && n < |a.cells| && Combinational(a.cells[n].kind)
    requires Undriving(dead)
    requires b == NL(a.cells[n := dead] + extra, b.nets, a.zero, a.one, a.pad) && a.nets <= b.nets
    requires forall k :: 0 <= k < |extra| ==> Combinational(extra[k].kind)
    requires Implements(a.cells[n], extra, a.zero, a.one, a.nets)
    ensures Lowers(a, b)
  {
    forall v: Valuation | Consistent(b, v)
      ensures Consistent(a, v)
    {
      ReplacedForward(a, n, dead, extra, b, v);
    }
    forall v: Valuation | Consistent(a, v)
      ensures Extends(a, b, v)
    {
      assert Holds(a.cells[n], v);
      var w: Valuation :| AgreeBelow(a.nets, v, w) && AllHold(extra, w);
      ReplacedBackward(a, n, dead, extra, b, v, w);
    }
  }

  lemma {:induction false} ReplacedWellFormed(a: NL, n: nat, dead: Cell, extra: seq<Cell>, b: NL)
    requires WellFormed(a) && n < |a.cells| && b == NL(a.cells[n := dead] + extra, b.nets, a.zero, a.one, a.pad)
    requires a.nets <= b.nets
    requires InRange(dead, b.nets) && forall k :: 0 <= k < |extra| ==> InRange(extra[k], b.nets)
    ensures WellFormed(b)
  {
    forall k | 0 <= k < |b.cells|
      ensures InRange(b.cells[k], b.nets)
    {
      if k >= |a.cells| {
        assert b.cells[k] == extra[k - |a.cells|];
      } else if k != n {
        assert b.cells[k] == a.cells[k] && InRange(a.cells[k], a.nets);
      }
    }
  }

  lemma {:induction false} ReplacedForward(a: NL, n: nat, dead: Cell, extra: seq<Cell>, b: NL, v: Valuation)
    requires n < |a.cells| && b.cells == a.cells[n := dead] + extra && b.zero == a.zero && b.one == a.one
    requires Consistent(b, v)
    requires Constants(a.zero, a.one, v) && AllHold(extra, v) ==> Holds(a.cells[n], v)
    ensures Consistent(a, v)
  {
    forall k | 0 <= k < |extra|
      ensures Holds(extra[k], v)
    {
      assert extra[k] == b.cells[|a.cells| + k];
    }
    forall k | 0 <= k < |a.cells|
      ensures Holds(a.cells[k], v)
    {
      if k != n { assert a.cells[k] == b.cells[k]; }
    }
  }

  lemma {:induction false} ReplacedBackward(a: NL, n: nat, dead: Cell, extra: seq<Cell>, b: NL, v: Valuation,
                                            w: Valuation)
    requires WellFormed(a) && n < |a.cells| && b.cells == a.cells[n := dead] + extra
    requires b.zero == a.zero && b.one == a.one && Undriving(dead)
    requires Consistent(a, v) && AgreeBelow(a.nets, v, w) && AllHold(extra, w)
    ensures Consistent(b, w)
  {
    forall k | 0 <= k < |b.cells|
      ensures Holds(b.cells[k], w)
    {
      if k >= |a.cells| {
        assert b.cells[k] == extra[k - |a.cells|];
      } else if k != n {
        assert Holds(a.cells[k], v) && b.cells[k] == a.cells[k];
        HoldsAgrees(a.cells[k], a.nets, v, w);
      }
    }
  }

  // ----- choosing values for fresh nets -----

  predicate Distinct(nets: seq<nat>) {
    forall i, j :: 0 <= i < j < |nets| ==> nets[i] != nets[j]
  }

  predicate AllAtLeast(nets: seq<nat>, lo: nat) {
    forall i :: 0 <= i < |nets| ==> nets[i] >= lo
  }

  /** `v` with the nets of a list set to the given values. */
  ghost function Override(v: Valuation, nets: seq<nat>, vals: seq<bool>): (w: Valuation)
    requires |nets| == |vals|
  {
    (e: nat) => if exists i :: 0 <= i < |nets| && nets[i] == e then
        var i :| 0 <= i < |nets| && nets[i] == e; vals[i]
      else v(e)
  }

  lemma {:induction false} OverrideAt(v: Valuation, nets: seq<nat>, vals: seq<bool>, lo: nat)
    requires |nets| == |vals| && Distinct(nets) && AllAtLeast(nets, lo)
    ensures forall i :: 0 <= i < |nets| ==> Override(v, nets, vals)(nets[i]) == vals[i]
    ensures AgreeBelow(lo, v, Override(v, nets, vals))
  {
  }
}
