/** Splitting a memory into two banks on the low address bit: the netlist that results, and the proof that it
    behaves as the original on every net and in every run. */
module BankSplit {
  import opened Wrappers
  import opened Bits
  import opened Semantics
  import opened Runs
  import opened RippleCells
  import opened MemoryPorts

  /** What a new net carries. `k` is an access port, `i` an output pin. */
  datatype Tag =
    | GateS(k: nat) | Inv(k: nat) | GateH(k: nat)   // write enables of the two banks
    | Reg(k: nat) | Nots(i: nat)                    // the registered address bit and its complement
    | OutS(i: nat) | OutH(i: nat)                   // the outputs of the two banks

  /** Which tags have a net, and which net. */
  datatype Plan = Plan(has: Tag -> bool, at: Tag -> nat)

  predicate IsMemory(c: Cell) {
    c.kind.SpMemory? || c.kind.DpMemory?
  }

  function AddrBit(c: Cell, k: nat): Option<nat>
    requires k < |Accesses(c.kind)|
  {
    First(RoleSlots(c, Accesses(c.kind)[k].addr))
  }

  function WeBit(c: Cell, k: nat): Option<nat>
    requires k < |Accesses(c.kind)|
  {
    First(RoleSlots(c, Accesses(c.kind)[k].we))
  }

  function OutTag(upper: bool, i: nat): Tag { if upper then OutS(i) else OutH(i) }

  function GateTag(upper: bool, k: nat): Tag { if upper then GateS(k) else GateH(k) }

  /** `b` is `c` without its low address bits, with its own write enables and its own output nets. */
  ghost predicate BankOf(c: Cell, b: Cell, m: Plan, upper: bool) {
    && b.kind == c.kind && b.outPorts == c.outPorts && |b.outs| == |c.outs|
    && RoleSlots(b, Clk) == RoleSlots(c, Clk)
    && (forall k :: 0 <= k < |Accesses(c.kind)| ==> AccessOfBank(c, b, m, upper, k))
    && (forall i :: 0 <= i < |c.outs| ==> m.has(OutTag(upper, i)) && b.outs[i] == Some(m.at(OutTag(upper, i))))
  }

  ghost predicate AccessOfBank(c: Cell, b: Cell, m: Plan, upper: bool, k: nat)
    requires k < |Accesses(c.kind)|
  {
    var p := Accesses(c.kind)[k];
    && RoleSlots(b, p.addr) == Tail(RoleSlots(c, p.addr))
    && RoleSlots(b, p.data) == RoleSlots(c, p.data)
    && (RoleSlots(c, p.we) == [] ==> RoleSlots(b, p.we) == [])
    && (RoleSlots(c, p.we) != [] ==> m.has(GateTag(upper, k)) && RoleSlots(b, p.we) == [Some(m.at(GateTag(upper, k)))])
  }

  function And2(x: Option<nat>, y: Option<nat>, out: nat): Cell {
    Cell(LogicalAnd, [x, y], [Some(out)], [Bit1, Bit1], [1])
  }

  function NotCell(x: Option<nat>, out: nat): Cell {
    Cell(LogicalNot, [x], [Some(out)], [], [])
  }

  /** The tags whose nets are driven by a gate, and the tags those gates need. */
  predicate GateReady(c: Cell, m: Plan, tag: Tag) {
    m.has(tag) &&
    match tag
    case GateS(k) => k < |Accesses(c.kind)|
    case Inv(k) => k < |Accesses(c.kind)|
    case GateH(k) => k < |Accesses(c.kind)| && m.has(Inv(k))
    case Reg(k) => k < |Accesses(c.kind)|
    case Nots(i) => i < |c.outs| && m.has(Reg(OutAccess(c, i)))
    case _ => false
  }

  function GateCell(c: Cell, m: Plan, tag: Tag): Cell
    requires GateReady(c, m, tag)
  {
    match tag
    case GateS(k) => And2(AddrBit(c, k), WeBit(c, k), m.at(tag))
    case Inv(k) => NotCell(AddrBit(c, k), m.at(tag))
    case GateH(k) => And2(Some(m.at(Inv(k))), WeBit(c, k), m.at(tag))
    case Reg(k) => Cell(FlipFlop, [AddrBit(c, k), ClockOf(c)], [Some(m.at(tag))], [Bit1, Bit1], [1])
    case Nots(i) => NotCell(Some(m.at(Reg(OutAccess(c, i)))), m.at(tag))
  }

  const Pair: Port := Port(Plain, 2)

  predicate MuxReady(c: Cell, m: Plan, i: nat) {
    i < |c.outs| && m.has(Reg(OutAccess(c, i))) && m.has(Nots(i)) && m.has(OutS(i)) && m.has(OutH(i))
  }

  function MuxCell(c: Cell, m: Plan, i: nat): Cell
    requires MuxReady(c, m, i)
  {
    Cell(Mux2, [Some(m.at(Reg(OutAccess(c, i)))), Some(m.at(Nots(i))), Some(m.at(OutS(i))), Some(m.at(OutH(i)))],
      [c.outs[i]], [Pair, Pair], [1])
  }

  ghost predicate PlanOk(m: Plan, base: nat) {
    && (forall tag :: m.has(tag) ==> m.at(tag) >= base)
    && (forall t, u :: m.has(t) && m.has(u) && m.at(t) == m.at(u) ==> t == u)
  }

  predicate IsOutTag(tag: Tag) { tag.OutS? || tag.OutH? }

  /** `b` is `a` with memory `n` cut into bank `n` (odd words) and bank `|a.cells|` (even words). */
  ghost predicate SplitOf(a: NL, b: NL, n: nat, m: Plan) {
    var h := |a.cells|;
    && n < h < |b.cells| && a.nets <= b.nets && a.zero == b.zero && a.one == b.one && a.pad == b.pad
    && IsMemory(a.cells[n]) && AllSome(a.cells[n].outs)
    && (forall k {:trigger a.cells[k]} :: 0 <= k < h && k != n ==> b.cells[k] == a.cells[k])
    && BankOf(a.cells[n], b.cells[n], m, true) && BankOf(a.cells[n], b.cells[h], m, false)
    && PlanOk(m, a.nets)
    && (forall tag :: m.has(tag) && !IsOutTag(tag) ==>
      GateReady(a.cells[n], m, tag) && GatePlaced(a.cells[n], b, h, m, tag))
    && (forall i :: 0 <= i < |a.cells[n].outs| ==> MuxReady(a.cells[n], m, i) && MuxPlaced(a.cells[n], b, h, m, i))
    && (forall idx {:trigger b.cells[idx]} :: h < idx < |b.cells| ==> Accounted(a.cells[n], b.cells[idx], m))
  }

  ghost predicate GatePlaced(c: Cell, b: NL, h: nat, m: Plan, tag: Tag)
    requires GateReady(c, m, tag)
  {
    exists idx {:trigger b.cells[idx]} :: h < idx < |b.cells| && b.cells[idx] == GateCell(c, m, tag)
  }

  ghost predicate MuxPlaced(c: Cell, b: NL, h: nat, m: Plan, i: nat)
    requires MuxReady(c, m, i)
  {
    exists idx {:trigger b.cells[idx]} :: h < idx < |b.cells| && b.cells[idx] == MuxCell(c, m, i)
  }

  ghost predicate Accounted(c: Cell, x: Cell, m: Plan) {
    || (exists tag :: GateReady(c, m, tag) && x == GateCell(c, m, tag))
    || (exists i :: MuxReady(c, m, i) && x == MuxCell(c, m, i))
  }

  // ----- gate meanings -----

  lemma {:induction false} AnyOfOne(b: bool)
    ensures Any([b]) == b
  {
    assert [b][0] == b;
  }

  lemma {:induction false} And2Holds(x: Option<nat>, y: Option<nat>, out: nat, v: Valuation)
    ensures Holds(And2(x, y, out), v) <==> v(out) == (Val(x, v) && Val(y, v))
  {
    var c := And2(x, y, out);
    PortValues(c, v);
    assert PortA(c) == [x] && PortB(c) == [y];
    AnyOfOne(Val(x, v));
    AnyOfOne(Val(y, v));
    assert Vals([x], v) == [Val(x, v)] && Vals([y], v) == [Val(y, v)];
    OutputsAre(c, v, [Val(x, v) && Val(y, v)]);
    assert c.outs[0].Some?;
  }

  lemma {:induction false} NotHolds(x: Option<nat>, out: nat, v: Valuation)
    ensures Holds(NotCell(x, out), v) <==> v(out) == !Val(x, v)
  {
    var c := NotCell(x, out);
    var xs := Vals(c.ins, v);
    assert xs[0] == Val(x, v);
    assert Any(xs) == Val(x, v);
    assert c.outs[0].Some?;
  }

  lemma {:induction false} MuxHolds(s: Option<nat>, ns: Option<nat>, x: Option<nat>, y: Option<nat>, out: nat,
                                    v: Valuation)
    ensures Holds(Cell(Mux2, [s, ns, x, y], [Some(out)], [Pair, Pair], [1]), v)
       <==> v(out) == ((Val(s, v) && Val(x, v)) || (Val(ns, v) && Val(y, v)))
  {
    var c := Cell(Mux2, [s, ns, x, y], [Some(out)], [Pair, Pair], [1]);
    PortValues(c, v);
    var sel, data := Vals(PortA(c), v), Vals(PortB(c), v);
    assert PortA(c) == [s, ns] && PortB(c) == [x, y];
    assert sel[0] == Val(s, v) && sel[1] == Val(ns, v) && data[0] == Val(x, v) && data[1] == Val(y, v);
    assert AndOr(sel, data) == ((sel[0] && data[0]) || (sel[1] && data[1]));
    assert c.outs[0].Some?;
  }

  // ----- one clock step of the banks -----

  /** The words of a bank: odd ones above, even ones below. */
  function BankMem(m: Mem, upper: bool): Mem {
    (x: nat, j: nat) => m(2 * x + BoolToNat(upper), j)
  }

  /** The two banks put together again. */
  function Merge(upper: Mem, lower: Mem): Mem {
    (x: nat, j: nat) => if x % 2 == 1 then upper(x / 2, j) else lower(x / 2, j)
  }

  /** Enables of a bank under `v`: the access is on, and its address bit is the bank's. */
  ghost predicate BankEnabled(c: Cell, b: Cell, v: Valuation, upper: bool) {
    && b.kind == c.kind
    && forall k :: 0 <= k < |Accesses(c.kind)| ==>
      Enabled(b, Accesses(c.kind)[k], v) == (Enabled(c, Accesses(c.kind)[k], v) && Val(AddrBit(c, k), v) == upper)
  }

  lemma {:induction false} BankAddress(c: Cell, b: Cell, m: Plan, upper: bool, k: nat, v: Valuation)
    requires BankOf(c, b, m, upper) && k < |Accesses(c.kind)|
    ensures Address(c, Accesses(c.kind)[k], v)
      == BoolToNat(Val(AddrBit(c, k), v)) + 2 * Address(b, Accesses(c.kind)[k], v)
  {
    assert AccessOfBank(c, b, m, upper, k);
    var s := RoleSlots(c, Accesses(c.kind)[k].addr);
    if s != [] {
      assert Vals(s, v)[1..] == Vals(s[1..], v);
    }
  }

  /** A bank writes exactly the writes of the whole memory to its own words. */
  lemma {:induction false} BankWritten(c: Cell, b: Cell, m: Plan, upper: bool, n: nat, v: Valuation, mem: Mem,
                                       bank: Mem, x: nat, j: nat)
    requires BankOf(c, b, m, upper) && BankEnabled(c, b, v, upper) && n <= |Accesses(c.kind)|
    requires bank(x, j) == mem(2 * x + BoolToNat(upper), j)
    ensures Written(b, Accesses(c.kind)[..n], v, bank, x, j)
         == Written(c, Accesses(c.kind)[..n], v, mem, 2 * x + BoolToNat(upper), j)
  {
    hide RoleSlots;
    if n > 0 {
      var ps := Accesses(c.kind)[..n];
      assert ps[..n - 1] == Accesses(c.kind)[..n - 1];
      BankWritten(c, b, m, upper, n - 1, v, mem, bank, x, j);
      BankAddress(c, b, m, upper, n - 1, v);
      assert AccessOfBank(c, b, m, upper, n - 1);
      var p := ps[n - 1];
      assert p == Accesses(c.kind)[n - 1];
      assert Writes(b, p, v, x, j) == Writes(c, p, v, 2 * x + BoolToNat(upper), j);
    }
  }

  lemma {:induction false} BankContents(c: Cell, b: Cell, m: Plan, upper: bool, v: Valuation, mem: Mem, bank: Mem,
                                        x: nat, j: nat)
    requires BankOf(c, b, m, upper) && BankEnabled(c, b, v, upper)
    requires bank(x, j) == mem(2 * x + BoolToNat(upper), j)
    ensures Written(b, Accesses(b.kind), v, bank, x, j)
      == Written(c, Accesses(c.kind), v, mem, 2 * x + BoolToNat(upper), j)
  {
    BankWritten(c, b, m, upper, |Accesses(c.kind)|, v, mem, bank, x, j);
    assert Accesses(c.kind)[..|Accesses(c.kind)|] == Accesses(c.kind);
  }

  // ----- what the gates around the banks say -----

  /** The nets of the plan carry what their tags say. */
  ghost predicate GatesSay(c: Cell, m: Plan, v: Valuation) {
    && (forall k :: 0 <= k < |Accesses(c.kind)| ==> AccessGatesSay(c, m, v, k))
    && (forall i :: 0 <= i < |c.outs| ==> MuxReady(c, m, i) ==> OutGatesSay(c, m, v, i))
  }

  ghost predicate AccessGatesSay(c: Cell, m: Plan, v: Valuation, k: nat)
    requires k < |Accesses(c.kind)|
  {
    && (m.has(Inv(k)) ==> v(m.at(Inv(k))) == !Val(AddrBit(c, k), v))
    && (m.has(GateS(k)) ==> v(m.at(GateS(k))) == (Val(AddrBit(c, k), v) && Val(WeBit(c, k), v)))
    && (m.has(GateH(k)) ==> v(m.at(GateH(k))) == (!Val(AddrBit(c, k), v) && Val(WeBit(c, k), v)))
  }

  ghost predicate OutGatesSay(c: Cell, m: Plan, v: Valuation, i: nat)
    requires MuxReady(c, m, i)
  {
    && v(m.at(Nots(i))) == !v(m.at(Reg(OutAccess(c, i))))
    && Val(c.outs[i], v) == if v(m.at(Reg(OutAccess(c, i)))) then v(m.at(OutS(i))) else v(m.at(OutH(i)))
  }

  lemma {:induction false} PlacedHolds(a: NL, b: NL, n: nat, m: Plan, tag: Tag, v: Valuation)
    requires SplitOf(a, b, n, m) && m.has(tag) && !IsOutTag(tag) && AllHold(b.cells, v)
    ensures GateReady(a.cells[n], m, tag) && Holds(GateCell(a.cells[n], m, tag), v)
  {
    assert GatePlaced(a.cells[n], b, |a.cells|, m, tag);
  }

  lemma {:induction false} AccessGatesHold(a: NL, b: NL, n: nat, m: Plan, v: Valuation, k: nat)
    requires SplitOf(a, b, n, m) && AllHold(b.cells, v) && k < |Accesses(a.cells[n].kind)|
    ensures AccessGatesSay(a.cells[n], m, v, k)
  {
    var c := a.cells[n];
    if m.has(Inv(k)) {
      PlacedHolds(a, b, n, m, Inv(k), v);
      NotHolds(AddrBit(c, k), m.at(Inv(k)), v);
    }
    if m.has(GateS(k)) {
      PlacedHolds(a, b, n, m, GateS(k), v);
      And2Holds(AddrBit(c, k), WeBit(c, k), m.at(GateS(k)), v);
    }
    if m.has(GateH(k)) {
      PlacedHolds(a, b, n, m, GateH(k), v);
      And2Holds(Some(m.at(Inv(k))), WeBit(c, k), m.at(GateH(k)), v);
    }
  }

  lemma {:induction false} OutGatesHold(a: NL, b: NL, n: nat, m: Plan, v: Valuation, i: nat)
    requires SplitOf(a, b, n, m) && AllHold(b.cells, v) && i < |a.cells[n].outs|
    ensures MuxReady(a.cells[n], m, i) && OutGatesSay(a.cells[n], m, v, i)
  {
    var c := a.cells[n];
    assert MuxReady(c, m, i) && MuxPlaced(c, b, |a.cells|, m, i);
    PlacedHolds(a, b, n, m, Nots(i), v);
    NotHolds(Some(m.at(Reg(OutAccess(c, i)))), m.at(Nots(i)), v);
    MuxHolds(Some(m.at(Reg(OutAccess(c, i)))), Some(m.at(Nots(i))), Some(m.at(OutS(i))), Some(m.at(OutH(i))),
      c.outs[i].value, v);
  }

  lemma {:induction false} GatesHold(a: NL, b: NL, n: nat, m: Plan, v: Valuation)
    requires SplitOf(a, b, n, m) && AllHold(b.cells, v)
    ensures GatesSay(a.cells[n], m, v)
  {
    forall k | 0 <= k < |Accesses(a.cells[n].kind)| ensures AccessGatesSay(a.cells[n], m, v, k) {
      AccessGatesHold(a, b, n, m, v, k);
    }
    forall i | 0 <= i < |a.cells[n].outs| ensures MuxReady(a.cells[n], m, i) && OutGatesSay(a.cells[n], m, v, i) {
      OutGatesHold(a, b, n, m, v, i);
    }
  }

  lemma {:induction false} BankIsEnabled(c: Cell, b: Cell, m: Plan, upper: bool, v: Valuation)
    requires BankOf(c, b, m, upper) && forall k :: 0 <= k < |Accesses(c.kind)| ==> AccessGatesSay(c, m, v, k)
    ensures BankEnabled(c, b, v, upper)
  {
    forall k | 0 <= k < |Accesses(c.kind)|
      ensures Enabled(b, Accesses(c.kind)[k], v)
        == (Enabled(c, Accesses(c.kind)[k], v) && Val(AddrBit(c, k), v) == upper)
    {
      assert AccessOfBank(c, b, m, upper, k) && AccessGatesSay(c, m, v, k);
    }
  }

  /** The register of access `k` follows its address bit. */
  ghost predicate RegSteps(c: Cell, m: Plan, v: Valuation, v': Valuation, k: nat)
    requires k < |Accesses(c.kind)| && m.has(Reg(k))
  {
    v'(m.at(Reg(k))) == if Edge(ClockOf(c), v, v') then Val(AddrBit(c, k), v) else v(m.at(Reg(k)))
  }

  // ----- refinement: a step of the banks is a step of the memory -----

  /** What a clock step puts on an output net of a bank. */
  lemma {:induction false} BankSteps(c: Cell, b: Cell, m: Plan, upper: bool, v: Valuation, v': Valuation, mem: Mem,
                                     mem': Mem, i: nat)
    requires IsMemory(c) && BankOf(c, b, m, upper) && MemoryStep(b, v, v', mem, mem') && i < |c.outs|
    ensures m.has(OutTag(upper, i))
    ensures v'(m.at(OutTag(upper, i)))
         == if Edge(ClockOf(c), v, v') then ReadOut(b, v, mem, i) else v(m.at(OutTag(upper, i)))
  {
    hide AccessOfBank, Edge, ReadOut, Written;
    assert b.outs[i] == Some(m.at(OutTag(upper, i)));
  }

  lemma {:induction false} MergedOut(c: Cell, s: Cell, h: Cell, m: Plan, v: Valuation, v': Valuation, ms: Mem,
                                     ms': Mem, mh: Mem, mh': Mem, i: nat)
    requires IsMemory(c) && BankOf(c, s, m, true) && BankOf(c, h, m, false)
    requires MemoryStep(s, v, v', ms, ms') && MemoryStep(h, v, v', mh, mh')
    requires i < |c.outs| && c.outs[i].Some? && MuxReady(c, m, i) && OutGatesSay(c, m, v, i) && OutGatesSay(c, m, v', i)
    requires RegSteps(c, m, v, v', OutAccess(c, i))
    ensures v'(c.outs[i].value) == if Edge(ClockOf(c), v, v') then ReadOut(c, v, Merge(ms, mh), i)
      else v(c.outs[i].value)
  {
    hide BankOf, MemoryStep, ReadOut, Merge, Edge, ClockOf;
    BankSteps(c, s, m, true, v, v', ms, ms', i);
    BankSteps(c, h, m, false, v, v', mh, mh', i);
    if Edge(ClockOf(c), v, v') {
      MergeParts(ms, mh);
      BankRead(c, s, m, true, v, Merge(ms, mh), ms, i);
      BankRead(c, h, m, false, v, Merge(ms, mh), mh, i);
    }
  }

  lemma {:induction false} MergeParts(ms: Mem, mh: Mem)
    ensures forall x: nat, j: nat {:trigger ms(x, j)} :: ms(x, j) == Merge(ms, mh)(2 * x + 1, j)
    ensures forall x: nat, j: nat {:trigger mh(x, j)} :: mh(x, j) == Merge(ms, mh)(2 * x, j)
  {
  }

  /** At an address with the bank's low bit, the bank reads what the whole memory reads. */
  lemma {:induction false} BankRead(c: Cell, b: Cell, m: Plan, upper: bool, v: Valuation, mem: Mem, bank: Mem, i: nat)
    requires IsMemory(c) && BankOf(c, b, m, upper)
    requires forall x: nat, j: nat {:trigger bank(x, j)} :: bank(x, j) == mem(2 * x + BoolToNat(upper), j)
    ensures Val(AddrBit(c, OutAccess(c, i)), v) == upper ==> ReadOut(b, v, bank, i) == ReadOut(c, v, mem, i)
  {
    BankAddress(c, b, m, upper, OutAccess(c, i), v);
  }

  lemma {:induction false} MergedContents(c: Cell, s: Cell, h: Cell, m: Plan, v: Valuation, v': Valuation, ms: Mem,
                                          ms': Mem, mh: Mem, mh': Mem, x: nat, j: nat)
    requires IsMemory(c) && BankOf(c, s, m, true) && BankOf(c, h, m, false) && GatesSay(c, m, v)
    requires MemoryStep(s, v, v', ms, ms') && MemoryStep(h, v, v', mh, mh')
    ensures Merge(ms', mh')(x, j) == if Edge(ClockOf(c), v, v') then
      Written(c, Accesses(c.kind), v, Merge(ms, mh), x, j) else Merge(ms, mh)(x, j)
  {
    hide RoleSlots;
    if x % 2 == 1 {
      BankIsEnabled(c, s, m, true, v);
      BankContents(c, s, m, true, v, Merge(ms, mh), ms, x / 2, j);
    } else {
      BankIsEnabled(c, h, m, false, v);
      BankContents(c, h, m, false, v, Merge(ms, mh), mh, x / 2, j);
    }
  }

  lemma {:induction false} MergedStep(c: Cell, s: Cell, h: Cell, m: Plan, v: Valuation, v': Valuation, ms: Mem,
                                      ms': Mem, mh: Mem, mh': Mem)
    requires IsMemory(c) && BankOf(c, s, m, true) && BankOf(c, h, m, false) && GatesSay(c, m, v) && GatesSay(c, m, v')
    requires MemoryStep(s, v, v', ms, ms') && MemoryStep(h, v, v', mh, mh')
    requires forall i :: 0 <= i < |c.outs| ==> MuxReady(c, m, i) && RegSteps(c, m, v, v', OutAccess(c, i))
    ensures MemoryStep(c, v, v', Merge(ms, mh), Merge(ms', mh'))
  {
    forall i | 0 <= i < |c.outs| && c.outs[i].Some?
      ensures v'(c.outs[i].value) == if Edge(ClockOf(c), v, v') then ReadOut(c, v, Merge(ms, mh), i)
        else v(c.outs[i].value)
    {
      assert MuxReady(c, m, i) && OutGatesSay(c, m, v, i) && OutGatesSay(c, m, v', i);
      MergedOut(c, s, h, m, v, v', ms, ms', mh, mh', i);
    }
    forall x: nat, j: nat
      ensures Merge(ms', mh')(x, j) == if Edge(ClockOf(c), v, v') then
        Written(c, Accesses(c.kind), v, Merge(ms, mh), x, j) else Merge(ms, mh)(x, j)
    {
      MergedContents(c, s, h, m, v, v', ms, ms', mh, mh', x, j);
    }
  }

  ghost function MergedStore(store: Store, n: nat, h: nat): Store {
    (t: nat, k: nat) => if k == n then Merge(store(t, n), store(t, h)) else store(t, k)
  }

  lemma {:induction false} RegPlaced(a: NL, b: NL, n: nat, m: Plan, wave: Wave, store: Store, t: nat, k: nat)
    requires SplitOf(a, b, n, m) && Run(b, wave, store) && k < |Accesses(a.cells[n].kind)| && m.has(Reg(k))
    ensures RegSteps(a.cells[n], m, wave(t), wave(t + 1), k)
  {
    hide Consistent;
    var c := a.cells[n];
    assert GateReady(c, m, Reg(k)) && GatePlaced(c, b, |a.cells|, m, Reg(k));
    var idx :| |a.cells| < idx < |b.cells| && b.cells[idx] == GateCell(c, m, Reg(k));
    assert CellStep(b.cells[idx], wave(t), wave(t + 1), store(t, idx), store(t + 1, idx));
  }

  lemma {:induction false} SplitMemoryStep(a: NL, b: NL, n: nat, m: Plan, wave: Wave, store: Store, t: nat)
    requires SplitOf(a, b, n, m) && Run(b, wave, store)
    requires GatesSay(a.cells[n], m, wave(t)) && GatesSay(a.cells[n], m, wave(t + 1))
    ensures CellStep(a.cells[n], wave(t), wave(t + 1), MergedStore(store, n, |a.cells|)(t, n),
      MergedStore(store, n, |a.cells|)(t + 1, n))
  {
    hide MemoryStep, MuxPlaced, Consistent, PlanOk;
    var c, h := a.cells[n], |a.cells|;
    assert CellStep(b.cells[n], wave(t), wave(t + 1), store(t, n), store(t + 1, n));
    assert CellStep(b.cells[h], wave(t), wave(t + 1), store(t, h), store(t + 1, h));
    forall i | 0 <= i < |c.outs|
      ensures MuxReady(c, m, i) && RegSteps(c, m, wave(t), wave(t + 1), OutAccess(c, i))
    {
      assert MuxReady(c, m, i);
      RegPlaced(a, b, n, m, wave, store, t, OutAccess(c, i));
    }
    MergedStep(c, b.cells[n], b.cells[h], m, wave(t), wave(t + 1), store(t, n), store(t + 1, n), store(t, h),
      store(t + 1, h));
  }

  /** Every run of the banks is a run of the memory, its contents being the banks' interleaved. */
  lemma {:induction false} SplitRun(a: NL, b: NL, n: nat, m: Plan, wave: Wave, store: Store)
    requires SplitOf(a, b, n, m) && Run(b, wave, store)
    ensures Run(a, wave, MergedStore(store, n, |a.cells|))
  {
    var c, h := a.cells[n], |a.cells|;
    forall t: nat
      ensures Consistent(a, wave(t)) && GatesSay(c, m, wave(t))
    {
      assert Consistent(b, wave(t));
      SplitConsistent(a, b, n, m, wave(t));
      GatesHold(a, b, n, m, wave(t));
    }
    forall t: nat, k: nat | k < |a.cells|
      ensures CellStep(a.cells[k], wave(t), wave(t + 1), MergedStore(store, n, h)(t, k),
        MergedStore(store, n, h)(t + 1, k))
    {
      assert CellStep(b.cells[k], wave(t), wave(t + 1), store(t, k), store(t + 1, k));
      if k == n {
        SplitMemoryStep(a, b, n, m, wave, store, t);
      } else {
        assert a.cells[k] == b.cells[k];
      }
    }
  }

  lemma {:induction false} SplitConsistent(a: NL, b: NL, n: nat, m: Plan, v: Valuation)
    requires SplitOf(a, b, n, m) && Consistent(b, v)
    ensures Consistent(a, v)
  {
    forall k | 0 <= k < |a.cells|
      ensures Holds(a.cells[k], v)
    {
      if k != n { assert b.cells[k] == a.cells[k]; }
    }
  }
}
