/** The other direction of the memory split: every run of the memory is shown by a run of its banks. */
module BankRealize {
  import opened Wrappers
  import opened Bits
  import opened Semantics
  import opened Runs
  import opened RippleCells
  import opened BankSplit

  /** The address bit of access `k` as its register holds it at time `t`. */
  ghost function RegAt(c: Cell, wave: Wave, k: nat, t: nat): bool {
    if t == 0 || k >= |Accesses(c.kind)| then true
    else if Edge(ClockOf(c), wave(t - 1), wave(t)) then Val(AddrBit(c, k), wave(t - 1))
    else RegAt(c, wave, k, t - 1)
  }

  /** What a bank puts on its output `i` at time `t`; at the start both banks show the memory's output. */
  ghost function BankOutAt(c: Cell, wave: Wave, hist: nat -> Mem, upper: bool, i: nat, t: nat): bool
    requires IsMemory(c) && i < |c.outs|
  {
    if t == 0 then Val(c.outs[i], wave(0))
    else if Edge(ClockOf(c), wave(t - 1), wave(t)) then
      BankMem(hist(t - 1), upper)(Address(c, Accesses(c.kind)[OutAccess(c, i)], wave(t - 1)) / 2, OutBit(c, i))
    else BankOutAt(c, wave, hist, upper, i, t - 1)
  }

  ghost function TagValue(c: Cell, wave: Wave, hist: nat -> Mem, tag: Tag, t: nat): bool
    requires IsMemory(c)
  {
    match tag
    case GateS(k) => k < |Accesses(c.kind)| && Val(AddrBit(c, k), wave(t)) && Val(WeBit(c, k), wave(t))
    case Inv(k) => k < |Accesses(c.kind)| && !Val(AddrBit(c, k), wave(t))
    case GateH(k) => k < |Accesses(c.kind)| && !Val(AddrBit(c, k), wave(t)) && Val(WeBit(c, k), wave(t))
    case Reg(k) => RegAt(c, wave, k, t)
    case Nots(i) => !RegAt(c, wave, OutAccess(c, i), t)
    case OutS(i) => i < |c.outs| && BankOutAt(c, wave, hist, true, i, t)
    case OutH(i) => i < |c.outs| && BankOutAt(c, wave, hist, false, i, t)
  }

  /** `v` with the nets of a plan set. */
  ghost function Set(v: Valuation, m: Plan, f: Tag -> bool): Valuation {
    (e: nat) => if exists tag ::
      m.has(tag) && m.at(tag) == e then var tag :| m.has(tag) && m.at(tag) == e; f(tag) else v(e)
  }

  lemma {:induction false} SetAt(v: Valuation, m: Plan, f: Tag -> bool, base: nat)
    requires PlanOk(m, base)
    ensures forall tag :: m.has(tag) ==> Set(v, m, f)(m.at(tag)) == f(tag)
    ensures AgreeBelow(base, v, Set(v, m, f))
  {
  }

  ghost function SplitWave(c: Cell, m: Plan, wave: Wave, hist: nat -> Mem): Wave
    requires IsMemory(c)
  {
    (t: nat) => Set(wave(t), m, (tag: Tag) => TagValue(c, wave, hist, tag, t))
  }

  ghost function SplitStore(store: Store, n: nat, h: nat): Store {
    (t: nat, k: nat) => if k == n then BankMem(store(t, n), true) else if k == h then BankMem(store(t, n), false)
      else store(t, k)
  }

  /** Just after an edge the selected bank shows the word that the memory read. */
  lemma {:induction false} SelectedRead(c: Cell, u: Valuation, u': Valuation, m: Mem, m': Mem, i: nat, k: nat)
    requires IsMemory(c) && i < |c.outs| && c.outs[i].Some? && k == OutAccess(c, i) && k < |Accesses(c.kind)|
    requires MemoryStep(c, u, u', m, m') && Edge(ClockOf(c), u, u')
    ensures Val(c.outs[i], u')
      == BankMem(m, Val(AddrBit(c, k), u))(Address(c, Accesses(c.kind)[k], u) / 2, OutBit(c, i))
  {
    LowBit(c, k, u);
    assert u'(c.outs[i].value) == ReadOut(c, u, m, i);
  }

  /** The selected bank always shows what the memory shows. */
  lemma {:induction false} SelectedOut(c: Cell, wave: Wave, hist: nat -> Mem, i: nat, t: nat)
    requires IsMemory(c) && i < |c.outs| && c.outs[i].Some?
    requires forall u: nat :: MemoryStep(c, wave(u), wave(u + 1), hist(u), hist(u + 1))
    ensures Val(c.outs[i], wave(t)) == BankOutAt(c, wave, hist, RegAt(c, wave, OutAccess(c, i), t), i, t)
  {
    if t > 0 {
      SelectedOut(c, wave, hist, i, t - 1);
      var u := t - 1;
      assert MemoryStep(c, wave(u), wave(u + 1), hist(u), hist(u + 1));
      if Edge(ClockOf(c), wave(u), wave(t)) {
        SelectedRead(c, wave(u), wave(t), hist(u), hist(t), i, OutAccess(c, i));
      }
    }
  }

  lemma {:induction false} LowBitOf(s: seq<Option<nat>>, v: Valuation)
    ensures var a := ToNat(Vals(s, v));
      a == 2 * (a / 2) + BoolToNat(Val(First(s), v))
  {
    var x := Vals(s, v);
    if x != [] { Halved(ToNat(x), BoolToNat(x[0]), ToNat(x[1..])); }
  }

  lemma {:induction false} Halved(a: nat, b: nat, h: nat)
    requires a == b + 2 * h && b <= 1
    ensures a / 2 == h
  {
  }

  lemma {:induction false} LowBit(c: Cell, k: nat, v: Valuation)
    requires k < |Accesses(c.kind)|
    ensures var a := Address(c, Accesses(c.kind)[k], v);
      a == 2 * (a / 2) + BoolToNat(Val(AddrBit(c, k), v))
  {
    LowBitOf(RoleSlots(c, Accesses(c.kind)[k].addr), v);
  }

  /** The values chosen for the plan make every gate hold. */
  ghost predicate Chosen(c: Cell, m: Plan, wave: Wave, hist: nat -> Mem, t: nat, w: Valuation)
    requires IsMemory(c)
  {
    forall tag :: m.has(tag) ==> w(m.at(tag)) == TagValue(c, wave, hist, tag, t)
  }

  lemma {:induction false} ChosenGateHolds(a: NL, b: NL, n: nat, m: Plan, wave: Wave, hist: nat -> Mem, t: nat,
                                           w: Valuation, tag: Tag)
    requires SplitOf(a, b, n, m) && WellFormed(a) && GateReady(a.cells[n], m, tag)
    requires Chosen(a.cells[n], m, wave, hist, t, w) && AgreeBelow(a.nets, wave(t), w)
    ensures Holds(GateCell(a.cells[n], m, tag), w)
  {
    var c := a.cells[n];
    assert InRange(c, a.nets);
    match tag
    case GateS(k) =>
      AccessBitsAgree(c, a.nets, k, wave(t), w);
      And2Holds(AddrBit(c, k), WeBit(c, k), m.at(tag), w);
    case Inv(k) =>
      AccessBitsAgree(c, a.nets, k, wave(t), w);
      NotHolds(AddrBit(c, k), m.at(tag), w);
    case GateH(k) =>
      AccessBitsAgree(c, a.nets, k, wave(t), w);
      assert w(m.at(Inv(k))) == TagValue(c, wave, hist, Inv(k), t);
      And2Holds(Some(m.at(Inv(k))), WeBit(c, k), m.at(tag), w);
    case Reg(k) =>
    case Nots(i) =>
      assert w(m.at(Reg(OutAccess(c, i)))) == TagValue(c, wave, hist, Reg(OutAccess(c, i)), t);
      NotHolds(Some(m.at(Reg(OutAccess(c, i)))), m.at(tag), w);
  }

  lemma {:induction false} AccessBitsAgree(c: Cell, nets: nat, k: nat, v: Valuation, w: Valuation)
    requires InRange(c, nets) && AgreeBelow(nets, v, w) && k < |Accesses(c.kind)|
    ensures Val(AddrBit(c, k), v) == Val(AddrBit(c, k), w) && Val(WeBit(c, k), v) == Val(WeBit(c, k), w)
    ensures Val(ClockOf(c), v) == Val(ClockOf(c), w)
  {
    forall role: Role
      ensures Val(First(RoleSlots(c, role)), v) == Val(First(RoleSlots(c, role)), w)
    {
      PortInRange(c, FindPort(c.inPorts, role), nets);
      SlotsAgree(RoleSlots(c, role), nets, v, w);
    }
  }

  lemma {:induction false} ChosenMuxHolds(a: NL, b: NL, n: nat, m: Plan, wave: Wave, hist: nat -> Mem, t: nat,
                                          w: Valuation, i: nat)
    requires SplitOf(a, b, n, m) && WellFormed(a) && MuxReady(a.cells[n], m, i)
    requires Chosen(a.cells[n], m, wave, hist, t, w) && AgreeBelow(a.nets, wave(t), w)
    requires forall u: nat :: MemoryStep(a.cells[n], wave(u), wave(u + 1), hist(u), hist(u + 1))
    ensures Holds(MuxCell(a.cells[n], m, i), w)
  {
    var c := a.cells[n];
    var k := OutAccess(c, i);
    assert c.outs[i].Some? && InRange(c, a.nets);
    SelectedOut(c, wave, hist, i, t);
    assert w(m.at(Reg(k))) == RegAt(c, wave, k, t) by { assert w(m.at(Reg(k))) == TagValue(c, wave, hist, Reg(k), t); }
    assert w(m.at(Nots(i))) == !RegAt(c, wave, k, t) by { assert w(m.at(Nots(i))) == TagValue(c, wave, hist, Nots(i), t); }
    assert w(m.at(OutS(i))) == BankOutAt(c, wave, hist, true, i, t) by { assert w(m.at(OutS(i))) == TagValue(c, wave, hist, OutS(i), t); }
    assert w(m.at(OutH(i))) == BankOutAt(c, wave, hist, false, i, t) by { assert w(m.at(OutH(i))) == TagValue(c, wave, hist, OutH(i), t); }
    MuxHolds(Some(m.at(Reg(k))), Some(m.at(Nots(i))), Some(m.at(OutS(i))), Some(m.at(OutH(i))), c.outs[i].value, w);
  }

  lemma {:induction false} SplitValuation(a: NL, b: NL, n: nat, m: Plan, wave: Wave, hist: nat -> Mem, t: nat,
                                          w: Valuation)
    requires SplitOf(a, b, n, m) && WellFormed(a) && Consistent(a, wave(t))
    requires Chosen(a.cells[n], m, wave, hist, t, w) && AgreeBelow(a.nets, wave(t), w)
    requires forall u: nat :: MemoryStep(a.cells[n], wave(u), wave(u + 1), hist(u), hist(u + 1))
    ensures Consistent(b, w)
  {
    var c, h := a.cells[n], |a.cells|;
    forall idx | 0 <= idx < |b.cells|
      ensures Holds(b.cells[idx], w)
    {
      if idx == n || idx == h {
      } else if idx < h {
        assert b.cells[idx] == a.cells[idx] && Holds(a.cells[idx], wave(t));
        HoldsAgrees(a.cells[idx], a.nets, wave(t), w);
      } else {
        assert Accounted(c, b.cells[idx], m);
        if tag :| GateReady(c, m, tag) && b.cells[idx] == GateCell(c, m, tag) {
          ChosenGateHolds(a, b, n, m, wave, hist, t, w, tag);
        } else {
          var i :| MuxReady(c, m, i) && b.cells[idx] == MuxCell(c, m, i);
          ChosenMuxHolds(a, b, n, m, wave, hist, t, w, i);
        }
      }
    }
  }

  lemma {:induction false} EdgeAgrees(c: Cell, nets: nat, v: Valuation, v': Valuation, w: Valuation, w': Valuation)
    requires IsMemory(c) && InRange(c, nets) && AgreeBelow(nets, v, w) && AgreeBelow(nets, v', w')
    ensures Edge(ClockOf(c), v, v') == Edge(ClockOf(c), w, w')
  {
    AccessBitsAgree(c, nets, 0, v, w);
    AccessBitsAgree(c, nets, 0, v', w');
  }

  lemma {:induction false} BankAddressIs(c: Cell, b: Cell, m: Plan, upper: bool, k: nat, v: Valuation, w: Valuation,
                                         nets: nat)
    requires BankOf(c, b, m, upper) && k < |Accesses(c.kind)| && InRange(c, nets) && AgreeBelow(nets, w, v)
    ensures Address(b, Accesses(c.kind)[k], v) == Address(c, Accesses(c.kind)[k], w) / 2
  {
    var p := Accesses(c.kind)[k];
    BankAddress(c, b, m, upper, k, v);
    PortInRange(c, FindPort(c.inPorts, p.addr), nets);
    SlotsAgree(RoleSlots(c, p.addr), nets, w, v);
  }

  /** A chosen step of a bank: its outputs. */
  lemma {:induction false} BankOutStep(c: Cell, b: Cell, m: Plan, upper: bool, wave: Wave, hist: nat -> Mem, t: nat,
                                       v: Valuation, v': Valuation, nets: nat, i: nat)
    requires IsMemory(c) && BankOf(c, b, m, upper) && InRange(c, nets) && i < |c.outs|
    requires Chosen(c, m, wave, hist, t, v) && Chosen(c, m, wave, hist, t + 1, v')
    requires AgreeBelow(nets, wave(t), v) && AgreeBelow(nets, wave(t + 1), v')
    ensures b.outs[i].Some? && v'(b.outs[i].value) ==
      if Edge(ClockOf(b), v, v') then ReadOut(b, v, BankMem(hist(t), upper), i) else v(b.outs[i].value)
  {
    OutIs(c, b, m, upper, wave, hist, t, v, i);
    OutIs(c, b, m, upper, wave, hist, t + 1, v', i);
    EdgeAgrees(c, nets, wave(t), wave(t + 1), v, v');
    if Edge(ClockOf(c), v, v') {
      ReadIs(c, b, m, upper, wave(t), v, hist(t), nets, i);
    }
  }

  lemma {:induction false} OutIs(c: Cell, b: Cell, m: Plan, upper: bool, wave: Wave, hist: nat -> Mem, t: nat,
                                 v: Valuation, i: nat)
    requires IsMemory(c) && BankOf(c, b, m, upper) && i < |c.outs| && Chosen(c, m, wave, hist, t, v)
    ensures b.outs[i].Some? && v(b.outs[i].value) == BankOutAt(c, wave, hist, upper, i, t)
  {
    var tag := OutTag(upper, i);
    assert m.has(tag) && b.outs[i] == Some(m.at(tag));
    assert v(m.at(tag)) == TagValue(c, wave, hist, tag, t);
  }

  lemma {:induction false} ReadIs(c: Cell, b: Cell, m: Plan, upper: bool, w: Valuation, v: Valuation, mem: Mem,
                                  nets: nat, i: nat)
    requires IsMemory(c) && BankOf(c, b, m, upper) && InRange(c, nets) && AgreeBelow(nets, w, v)
    ensures ReadOut(b, v, BankMem(mem, upper), i)
         == BankMem(mem, upper)(Address(c, Accesses(c.kind)[OutAccess(c, i)], w) / 2, OutBit(c, i))
  {
    BankAddressIs(c, b, m, upper, OutAccess(c, i), v, w, nets);
  }

  lemma {:induction false} BankMemStep(c: Cell, b: Cell, m: Plan, upper: bool, v: Valuation, edge: bool, mem: Mem,
                                       mem': Mem, x: nat, j: nat)
    requires IsMemory(c) && BankOf(c, b, m, upper) && BankEnabled(c, b, v, upper)
    requires forall x: nat, j: nat ::
      mem'(x, j) == if edge then Written(c, Accesses(c.kind), v, mem, x, j) else mem(x, j)
    ensures BankMem(mem', upper)(x, j) == if edge then Written(b, Accesses(b.kind), v, BankMem(mem, upper), x, j)
      else BankMem(mem, upper)(x, j)
  {
    BankContents(c, b, m, upper, v, mem, BankMem(mem, upper), x, j);
  }

  lemma {:induction false} BankSteps(c: Cell, b: Cell, m: Plan, upper: bool, wave: Wave, hist: nat -> Mem, t: nat,
                                     v: Valuation, v': Valuation, nets: nat)
    requires IsMemory(c) && BankOf(c, b, m, upper) && InRange(c, nets)
    requires Chosen(c, m, wave, hist, t, v) && Chosen(c, m, wave, hist, t + 1, v')
    requires AgreeBelow(nets, wave(t), v) && AgreeBelow(nets, wave(t + 1), v')
    requires MemoryStep(c, v, v', hist(t), hist(t + 1)) && BankEnabled(c, b, v, upper)
    ensures MemoryStep(b, v, v', BankMem(hist(t), upper), BankMem(hist(t + 1), upper))
  {
    forall i | 0 <= i < |b.outs| && b.outs[i].Some?
      ensures v'(b.outs[i].value) == if Edge(ClockOf(b), v, v') then ReadOut(b, v, BankMem(hist(t), upper), i)
        else v(b.outs[i].value)
    {
      BankOutStep(c, b, m, upper, wave, hist, t, v, v', nets, i);
    }
    forall x: nat, j: nat
      ensures BankMem(hist(t + 1), upper)(x, j) ==
        if Edge(ClockOf(b), v, v') then Written(b, Accesses(b.kind), v, BankMem(hist(t), upper), x, j)
          else BankMem(hist(t), upper)(x, j)
    {
      BankMemStep(c, b, m, upper, v, Edge(ClockOf(c), v, v'), hist(t), hist(t + 1), x, j);
    }
  }

  ghost function History(store: Store, n: nat): nat -> Mem {
    (t: nat) => store(t, n)
  }

  lemma {:induction false} ChosenGates(c: Cell, m: Plan, wave: Wave, hist: nat -> Mem, t: nat, v: Valuation, nets: nat)
    requires IsMemory(c) && InRange(c, nets) && Chosen(c, m, wave, hist, t, v) && AgreeBelow(nets, wave(t), v)
    ensures forall k :: 0 <= k < |Accesses(c.kind)| ==> AccessGatesSay(c, m, v, k)
  {
    forall k | 0 <= k < |Accesses(c.kind)|
      ensures AccessGatesSay(c, m, v, k)
    {
      AccessBitsAgree(c, nets, k, wave(t), v);
      assert m.has(GateS(k)) ==> v(m.at(GateS(k))) == TagValue(c, wave, hist, GateS(k), t);
      assert m.has(Inv(k)) ==> v(m.at(Inv(k))) == TagValue(c, wave, hist, Inv(k), t);
      assert m.has(GateH(k)) ==> v(m.at(GateH(k))) == TagValue(c, wave, hist, GateH(k), t);
    }
  }

  lemma {:induction false} SplitWaveChosen(c: Cell, m: Plan, wave: Wave, hist: nat -> Mem, nets: nat)
    requires IsMemory(c) && PlanOk(m, nets)
    ensures forall t: nat ::
      AgreeBelow(nets, wave(t), SplitWave(c, m, wave, hist)(t))
        && Chosen(c, m, wave, hist, t, SplitWave(c, m, wave, hist)(t))
  {
    forall t: nat
      ensures AgreeBelow(nets, wave(t), SplitWave(c, m, wave, hist)(t))
      ensures Chosen(c, m, wave, hist, t, SplitWave(c, m, wave, hist)(t))
    {
      SetAt(wave(t), m, (tag: Tag) => TagValue(c, wave, hist, tag, t), nets);
    }
  }

  /** The chosen values and the divided contents are a run of the banks. */
  lemma {:induction false} SplitIsRun(a: NL, b: NL, n: nat, m: Plan, wave: Wave, store: Store)
    requires SplitOf(a, b, n, m) && WellFormed(a) && Run(a, wave, store)
    ensures var w := SplitWave(a.cells[n], m, wave, History(store, n));
      WavesAgree(a.nets, wave, w) && Run(b, w, SplitStore(store, n, |a.cells|))
  {
    hide BankOf, TagValue, Consistent, BankMem, SplitWave, Set, ClockOf, Edge;
    var c, h, hist := a.cells[n], |a.cells|, History(store, n);
    var w := SplitWave(c, m, wave, hist);
    SplitWaveChosen(c, m, wave, hist, a.nets);
    forall u: nat
      ensures MemoryStep(c, wave(u), wave(u + 1), hist(u), hist(u + 1))
    {
      assert CellStep(a.cells[n], wave(u), wave(u + 1), store(u, n), store(u + 1, n));
    }
    forall t: nat
      ensures Consistent(b, w(t))
    {
      assert Consistent(a, wave(t));
      SplitValuation(a, b, n, m, wave, hist, t, w(t));
    }
    forall t: nat, k: nat | k < |b.cells|
      ensures CellStep(b.cells[k], w(t), w(t + 1), SplitStore(store, n, h)(t, k), SplitStore(store, n, h)(t + 1, k))
    {
      SplitCellStep(a, b, n, m, wave, store, w, t, k);
    }
  }

  lemma {:induction false} SplitCellStep(a: NL, b: NL, n: nat, m: Plan, wave: Wave, store: Store, w: Wave, t: nat,
                                         k: nat)
    requires SplitOf(a, b, n, m) && WellFormed(a) && Run(a, wave, store) && k < |b.cells|
    requires AgreeBelow(a.nets, wave(t), w(t)) && AgreeBelow(a.nets, wave(t + 1), w(t + 1))
    requires Chosen(a.cells[n], m, wave, History(store, n), t, w(t))
    requires Chosen(a.cells[n], m, wave, History(store, n), t + 1, w(t + 1))
    ensures CellStep(b.cells[k], w(t), w(t + 1), SplitStore(store, n, |a.cells|)(t, k),
      SplitStore(store, n, |a.cells|)(t + 1, k))
  {
    hide BankOf, MemoryStep, MuxCell, Consistent;
    var c, h, hist := a.cells[n], |a.cells|, History(store, n);
    assert InRange(c, a.nets);
    if k == n || k == h {
      assert CellStep(a.cells[n], wave(t), wave(t + 1), store(t, n), store(t + 1, n));
      StepAgrees(a, n, wave(t), wave(t + 1), w(t), w(t + 1), store(t, n), store(t + 1, n));
      ChosenGates(c, m, wave, hist, t, w(t), a.nets);
      BankIsEnabled(c, b.cells[k], m, k == n, w(t));
      BankSteps(c, b.cells[k], m, k == n, wave, hist, t, w(t), w(t + 1), a.nets);
    } else if k < h {
      assert b.cells[k] == a.cells[k];
      assert CellStep(a.cells[k], wave(t), wave(t + 1), store(t, k), store(t + 1, k));
      StepAgrees(a, k, wave(t), wave(t + 1), w(t), w(t + 1), store(t, k), store(t + 1, k));
    } else {
      assert Accounted(c, b.cells[k], m);
      GateSteps(c, b.cells[k], m, wave, hist, t, w(t), w(t + 1), a.nets);
    }
  }

  lemma {:induction false} GateSteps(c: Cell, x: Cell, m: Plan, wave: Wave, hist: nat -> Mem, t: nat, v: Valuation,
                                     v': Valuation, nets: nat)
    requires IsMemory(c) && InRange(c, nets) && Accounted(c, x, m)
    requires Chosen(c, m, wave, hist, t, v) && Chosen(c, m, wave, hist, t + 1, v')
    requires AgreeBelow(nets, wave(t), v) && AgreeBelow(nets, wave(t + 1), v')
    ensures forall mem: Mem, mem': Mem :: CellStep(x, v, v', mem, mem')
  {
    if tag :| GateReady(c, m, tag) && x == GateCell(c, m, tag) && tag.Reg? {
      AccessBitsAgree(c, nets, tag.k, wave(t), v);
      EdgeAgrees(c, nets, wave(t), wave(t + 1), v, v');
      assert v'(m.at(tag)) == TagValue(c, wave, hist, tag, t + 1) && v(m.at(tag)) == TagValue(c, wave, hist, tag, t);
    }
  }

  /** The split is invisible: on the nets of the original netlist, both have the same behaviours. */
  lemma {:induction false} SplitEquivalent(a: NL, b: NL, n: nat, m: Plan)
    requires SplitOf(a, b, n, m) && WellFormed(a)
    ensures RunEquivalent(a, b)
  {
    forall wave: Wave | Shows(b, wave)
      ensures Shows(a, wave)
    {
      var store :| Run(b, wave, store);
      SplitRun(a, b, n, m, wave, store);
    }
    forall wave: Wave | Shows(a, wave)
      ensures ShowsBelow(b, a.nets, wave)
    {
      var store :| Run(a, wave, store);
      SplitIsRun(a, b, n, m, wave, store);
      var w := SplitWave(a.cells[n], m, wave, History(store, n));
      assert Shows(b, w);
    }
  }
}
