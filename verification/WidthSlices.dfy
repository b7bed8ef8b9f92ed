/** Cutting a memory into column slices: netlists whose slices, run together, behave as the original on every net
    and in every run. A memory whose word is padded is the case of one slice in its own place. */
module WidthSlices {
  import opened Wrappers
  import opened Bits
  import opened Semantics
  import opened Runs
  import opened BankSplit

  /** The memory at node `at` holds the columns from `lo` on; `wid` of them matter. */
  datatype Cut = Cut(at: nat, lo: nat, wid: nat)

  ghost predicate AccessOfSlice(c: Cell, s: Cell, cut: Cut, k: nat)
    requires k < |Accesses(c.kind)|
  {
    var p := Accesses(c.kind)[k];
    && RoleSlots(s, p.addr) == RoleSlots(c, p.addr) && RoleSlots(s, p.we) == RoleSlots(c, p.we)
    && forall j :: 0 <= j < cut.wid ==> SameData(RoleSlots(c, p.data), RoleSlots(s, p.data), cut.lo, j)
  }

  /** Bit `j` of the slice is bit `lo + j` of the word, or neither has a pin. */
  predicate SameData(whole: seq<Option<nat>>, part: seq<Option<nat>>, lo: nat, j: nat) {
    (j < |part| <==> lo + j < |whole|) && (j < |part| ==> part[j] == whole[lo + j])
  }

  /** Output `k` of the slice is output `i` of the memory: same net, same access port, same column. */
  predicate SameOut(c: Cell, s: Cell, lo: nat, i: nat, k: nat) {
    && i < |c.outs| && k < |s.outs| && s.outs[k] == c.outs[i]
    && OutAccess(s, k) == OutAccess(c, i) && OutBit(c, i) == lo + OutBit(s, k)
  }

  ghost predicate SliceOf(c: Cell, s: Cell, cut: Cut) {
    && s.kind == c.kind && RoleSlots(s, Clk) == RoleSlots(c, Clk)
    && (forall k :: 0 <= k < |Accesses(c.kind)| ==> AccessOfSlice(c, s, cut, k))
    && (forall k {:trigger s.outs[k]} :: 0 <= k < |s.outs| && s.outs[k].Some? ==>
          OutBit(s, k) < cut.wid && exists i :: SameOut(c, s, cut.lo, i, k))
  }

  /** The same kind of memory with the same address pins on its first access port. */
  ghost predicate SameDepth(c: Cell, s: Cell) {
    IsMemory(c) && s.kind == c.kind
    && RoleSlots(s, Accesses(c.kind)[0].addr) == RoleSlots(c, Accesses(c.kind)[0].addr)
  }

  lemma {:induction false} SliceDepth(c: Cell, s: Cell, cut: Cut)
    requires IsMemory(c) && SliceOf(c, s, cut)
    ensures SameDepth(c, s)
  {
    assert AccessOfSlice(c, s, cut, 0);
  }

  ghost predicate OutPlaced(c: Cell, b: NL, cuts: seq<Cut>, i: nat) {
    exists q: nat, k: nat :: q < |cuts| && cuts[q].at < |b.cells| && SameOut(c, b.cells[cuts[q].at], cuts[q].lo, i, k)
  }

  predicate Apart(cuts: seq<Cut>) {
    forall p, q :: 0 <= p < q < |cuts| ==> cuts[p].lo + cuts[p].wid <= cuts[q].lo && cuts[p].at != cuts[q].at
  }

  ghost predicate IsSliceNode(cuts: seq<Cut>, k: nat) {
    exists q :: 0 <= q < |cuts| && cuts[q].at == k
  }

  /** `b` is `a` with memory `n` replaced by its slices. */
  ghost predicate SlicesOf(a: NL, b: NL, n: nat, cuts: seq<Cut>) {
    && n < |a.cells| <= |b.cells| && IsMemory(a.cells[n])
    && b == NL(b.cells, a.nets, a.zero, a.one, a.pad)
    && (forall k {:trigger a.cells[k]} :: 0 <= k < |a.cells| && k != n ==> b.cells[k] == a.cells[k])
    && Apart(cuts)
    && (forall q :: 0 <= q < |cuts| ==> CutPlaced(a, b, n, cuts[q]))
    && (forall k {:trigger b.cells[k]} :: (k == n || |a.cells| <= k < |b.cells|) ==>
      IsSliceNode(cuts, k) || Undriving(b.cells[k]))
    && (forall i :: 0 <= i < |a.cells[n].outs| && a.cells[n].outs[i].Some? ==> OutPlaced(a.cells[n], b, cuts, i))
  }

  ghost predicate CutPlaced(a: NL, b: NL, n: nat, cut: Cut)
    requires n < |a.cells|
  {
    cut.at < |b.cells| && (cut.at == n || |a.cells| <= cut.at) && SliceOf(a.cells[n], b.cells[cut.at], cut)
  }

  // ----- contents -----

  /** The slice holds its columns of the whole memory. */
  ghost predicate Columns(m: Mem, s: Mem, cut: Cut) {
    forall x: nat, j: nat :: j < cut.wid ==> s(x, j) == m(x, cut.lo + j)
  }

  function NextMem(c: Cell, v: Valuation, v': Valuation, m: Mem): Mem {
    (x: nat, j: nat) => if Edge(ClockOf(c), v, v') then Written(c, Accesses(c.kind), v, m, x, j) else m(x, j)
  }

  /** What a memory with contents `m` at the start holds at time `t`. */
  function Evolve(c: Cell, wave: Wave, m: Mem, t: nat): Mem {
    if t == 0 then m else NextMem(c, wave(t - 1), wave(t), Evolve(c, wave, m, t - 1))
  }

  lemma {:induction false} SliceWrites(c: Cell, s: Cell, cut: Cut, k: nat, v: Valuation, x: nat, j: nat)
    requires SliceOf(c, s, cut) && k < |Accesses(c.kind)| && j < cut.wid
    ensures var p := Accesses(c.kind)[k];
      && Writes(s, p, v, x, j) == Writes(c, p, v, x, cut.lo + j)
      && (Writes(s, p, v, x, j) ==> DataBit(s, p, v, j) == DataBit(c, p, v, cut.lo + j))
  {
    hide RoleSlots;
    assert AccessOfSlice(c, s, cut, k);
    var p := Accesses(c.kind)[k];
    assert SameData(RoleSlots(c, p.data), RoleSlots(s, p.data), cut.lo, j);
  }

  lemma {:induction false} SliceWritten(c: Cell, s: Cell, cut: Cut, n: nat, v: Valuation, m: Mem, ms: Mem, x: nat,
                                        j: nat)
    requires SliceOf(c, s, cut) && n <= |Accesses(c.kind)| && Columns(m, ms, cut) && j < cut.wid
    ensures Written(s, Accesses(c.kind)[..n], v, ms, x, j) == Written(c, Accesses(c.kind)[..n], v, m, x, cut.lo + j)
  {
    if n > 0 {
      var ps := Accesses(c.kind)[..n];
      assert ps[..n - 1] == Accesses(c.kind)[..n - 1];
      SliceWritten(c, s, cut, n - 1, v, m, ms, x, j);
      SliceWrites(c, s, cut, n - 1, v, x, j);
      assert ps[n - 1] == Accesses(c.kind)[n - 1];
    }
  }

  lemma {:induction false} NextPoint(c: Cell, s: Cell, cut: Cut, v: Valuation, v': Valuation, m: Mem, ms: Mem, x: nat,
                                     j: nat)
    requires SliceOf(c, s, cut) && Columns(m, ms, cut) && j < cut.wid
    ensures NextMem(s, v, v', ms)(x, j) == NextMem(c, v, v', m)(x, cut.lo + j)
  {
    hide RoleSlots;
    assert Edge(ClockOf(s), v, v') == Edge(ClockOf(c), v, v');
    AllSliceWritten(c, s, cut, v, m, ms, x, j);
    hide Edge, SliceOf, Written, Accesses, Columns;
  }

  lemma {:induction false} SliceNext(c: Cell, s: Cell, cut: Cut, v: Valuation, v': Valuation, m: Mem, ms: Mem)
    requires SliceOf(c, s, cut) && Columns(m, ms, cut)
    ensures Columns(NextMem(c, v, v', m), NextMem(s, v, v', ms), cut)
  {
    hide NextMem, SliceOf;
    forall x: nat, j: nat | j < cut.wid
      ensures NextMem(s, v, v', ms)(x, j) == NextMem(c, v, v', m)(x, cut.lo + j)
    {
      NextPoint(c, s, cut, v, v', m, ms, x, j);
    }
  }

  lemma {:induction false} AllSliceWritten(c: Cell, s: Cell, cut: Cut, v: Valuation, m: Mem, ms: Mem, x: nat, j: nat)
    requires SliceOf(c, s, cut) && Columns(m, ms, cut) && j < cut.wid
    ensures Written(s, Accesses(s.kind), v, ms, x, j) == Written(c, Accesses(c.kind), v, m, x, cut.lo + j)
    ensures ms(x, j) == m(x, cut.lo + j)
  {
    assert Accesses(c.kind)[..|Accesses(c.kind)|] == Accesses(c.kind);
    SliceWritten(c, s, cut, |Accesses(c.kind)|, v, m, ms, x, j);
  }

  /** The contents over time obey the memory's step. */
  ghost predicate Steps(c: Cell, wave: Wave, hist: nat -> Mem) {
    forall t: nat {:trigger hist(t + 1)} :: SameMem(hist(t + 1), NextMem(c, wave(t), wave(t + 1), hist(t)))
  }

  lemma {:induction false} EvolveSteps(c: Cell, wave: Wave, m: Mem)
    ensures Steps(c, wave, (t: nat) => Evolve(c, wave, m, t))
  {
  }

  /** Started with the right columns, a slice holds them at all times. */
  lemma {:induction false} ColumnsKept(c: Cell, s: Cell, cut: Cut, wave: Wave, hist: nat -> Mem, part: nat -> Mem,
                                       t: nat)
    requires SliceOf(c, s, cut) && Steps(c, wave, hist) && Steps(s, wave, part) && Columns(hist(0), part(0), cut)
    ensures Columns(hist(t), part(t), cut)
  {
    if t > 0 {
      var u: nat := t - 1;
      ColumnsKept(c, s, cut, wave, hist, part, u);
      SliceNext(c, s, cut, wave(u), wave(u + 1), hist(u), part(u));
      assert SameMem(hist(u + 1), NextMem(c, wave(u), wave(u + 1), hist(u)));
      assert SameMem(part(u + 1), NextMem(s, wave(u), wave(u + 1), part(u)));
    }
  }

  /** Both read the same at corresponding outputs. */
  lemma {:induction false} SliceReads(c: Cell, s: Cell, cut: Cut, v: Valuation, m: Mem, ms: Mem, i: nat, k: nat)
    requires IsMemory(c) && SliceOf(c, s, cut) && Columns(m, ms, cut) && SameOut(c, s, cut.lo, i, k)
    requires OutBit(s, k) < cut.wid
    ensures ReadOut(s, v, ms, k) == ReadOut(c, v, m, i)
  {
    hide PortOf;
    assert AccessOfSlice(c, s, cut, OutAccess(c, i));
    assert Address(s, Accesses(s.kind)[OutAccess(s, k)], v) == Address(c, Accesses(c.kind)[OutAccess(c, i)], v);
    hide Accesses, Address, OutAccess, OutBit, SliceOf, RoleSlots;
  }

  ghost predicate Reads(c: Cell, v: Valuation, v': Valuation, m: Mem)
    requires IsMemory(c)
  {
    forall i {:trigger c.outs[i]} :: 0 <= i < |c.outs| && c.outs[i].Some? ==>
      v'(c.outs[i].value) == if Edge(ClockOf(c), v, v') then ReadOut(c, v, m, i) else v(c.outs[i].value)
  }

  lemma {:induction false} StepParts(c: Cell, v: Valuation, v': Valuation, m: Mem, m': Mem)
    requires IsMemory(c)
    ensures CellStep(c, v, v', m, m') <==> Reads(c, v, v', m) && SameMem(m', NextMem(c, v, v', m))
  {
  }

  ghost function Contents(store: Store, k: nat): nat -> Mem {
    (t: nat) => store(t, k)
  }

  lemma {:induction false} RunSteps(nl: NL, wave: Wave, store: Store, k: nat)
    requires Run(nl, wave, store) && k < |nl.cells| && IsMemory(nl.cells[k])
    ensures Steps(nl.cells[k], wave, Contents(store, k))
  {
    forall t: nat ensures SameMem(store(t + 1, k), NextMem(nl.cells[k], wave(t), wave(t + 1), store(t, k))) {
      assert CellStep(nl.cells[k], wave(t), wave(t + 1), store(t, k), store(t + 1, k));
      StepParts(nl.cells[k], wave(t), wave(t + 1), store(t, k), store(t + 1, k));
    }
  }

  // ----- a run of the slices is a run of the memory -----

  ghost predicate Covers(cut: Cut, col: nat) {
    cut.lo <= col < cut.lo + cut.wid
  }

  /** The columns of all slices put side by side. */
  ghost function GatherAt(cuts: seq<Cut>, store: Store, x: nat, col: nat): bool {
    if exists q :: 0 <= q < |cuts| && Covers(cuts[q], col) then
      var q :| 0 <= q < |cuts| && Covers(cuts[q], col);
      store(0, cuts[q].at)(x, col - cuts[q].lo)
    else false
  }

  ghost function Gather(cuts: seq<Cut>, store: Store): Mem {
    (x: nat, col: nat) => GatherAt(cuts, store, x, col)
  }

  lemma {:induction false} OneCovers(cuts: seq<Cut>, p: nat, q: nat, col: nat)
    requires Apart(cuts) && p < |cuts| && q < |cuts| && Covers(cuts[p], col) && Covers(cuts[q], col)
    ensures p == q
  {
  }

  lemma {:induction false} GatherPoint(cuts: seq<Cut>, store: Store, q: nat, x: nat, j: nat)
    requires Apart(cuts) && q < |cuts| && j < cuts[q].wid
    ensures Gather(cuts, store)(x, cuts[q].lo + j) == store(0, cuts[q].at)(x, j)
  {
    var col := cuts[q].lo + j;
    assert Covers(cuts[q], col);
    var p :| 0 <= p < |cuts| && Covers(cuts[p], col)
      && GatherAt(cuts, store, x, col) == store(0, cuts[p].at)(x, col - cuts[p].lo);
    OneCovers(cuts, p, q, col);
  }

  lemma {:induction false} GatherColumns(cuts: seq<Cut>, store: Store, q: nat)
    requires Apart(cuts) && q < |cuts|
    ensures Columns(Gather(cuts, store), store(0, cuts[q].at), cuts[q])
  {
    hide Gather, Apart;
    forall x: nat, j: nat | j < cuts[q].wid
      ensures store(0, cuts[q].at)(x, j) == Gather(cuts, store)(x, cuts[q].lo + j) {
      GatherPoint(cuts, store, q, x, j);
    }
  }

  ghost function WholeAt(c: Cell, cuts: seq<Cut>, n: nat, wave: Wave, store: Store, t: nat, k: nat): Mem {
    if k == n then Evolve(c, wave, Gather(cuts, store), t) else store(t, k)
  }

  ghost function WholeStore(c: Cell, cuts: seq<Cut>, n: nat, wave: Wave, store: Store): Store {
    (t: nat, k: nat) => WholeAt(c, cuts, n, wave, store, t, k)
  }

  lemma {:induction false} WholeColumns(a: NL, b: NL, n: nat, cuts: seq<Cut>, wave: Wave, store: Store, q: nat, t: nat)
    requires SlicesOf(a, b, n, cuts) && Run(b, wave, store) && q < |cuts|
    ensures Columns(Evolve(a.cells[n], wave, Gather(cuts, store), t), store(t, cuts[q].at), cuts[q])
  {
    var c, m := a.cells[n], Gather(cuts, store);
    assert CutPlaced(a, b, n, cuts[q]);
    GatherColumns(cuts, store, q);
    RunSteps(b, wave, store, cuts[q].at);
    EvolveSteps(c, wave, m);
    ColumnsKept(c, b.cells[cuts[q].at], cuts[q], wave, (u: nat) => Evolve(c, wave, m, u), Contents(store, cuts[q].at),
      t);
  }

  lemma {:induction false} WholeReads(a: NL, b: NL, n: nat, cuts: seq<Cut>, wave: Wave, store: Store, t: nat)
    requires SlicesOf(a, b, n, cuts) && Run(b, wave, store)
    ensures Reads(a.cells[n], wave(t), wave(t + 1), Evolve(a.cells[n], wave, Gather(cuts, store), t))
  {
    var c, v, v' := a.cells[n], wave(t), wave(t + 1);
    var m := Evolve(c, wave, Gather(cuts, store), t);
    forall i {:trigger c.outs[i]} | 0 <= i < |c.outs| && c.outs[i].Some?
      ensures v'(c.outs[i].value) == if Edge(ClockOf(c), v, v') then ReadOut(c, v, m, i) else v(c.outs[i].value)
    {
      assert OutPlaced(c, b, cuts, i);
      var q: nat, k: nat :| q < |cuts| && cuts[q].at < |b.cells| && SameOut(c, b.cells[cuts[q].at], cuts[q].lo, i, k);
      WholeRead(a, b, n, cuts, wave, store, t, i, q, k);
    }
  }

  lemma {:induction false} WholeRead(a: NL, b: NL, n: nat, cuts: seq<Cut>, wave: Wave, store: Store, t: nat, i: nat,
                                     q: nat, k: nat)
    requires SlicesOf(a, b, n, cuts) && Run(b, wave, store) && q < |cuts| && cuts[q].at < |b.cells|
    requires i < |a.cells[n].outs| && a.cells[n].outs[i].Some?
    requires SameOut(a.cells[n], b.cells[cuts[q].at], cuts[q].lo, i, k)
    ensures var c, v, v' := a.cells[n], wave(t), wave(t + 1);
      v'(c.outs[i].value) ==
        if Edge(ClockOf(c), v, v') then ReadOut(c, v, Evolve(c, wave, Gather(cuts, store), t), i)
          else v(c.outs[i].value)
  {
    var at := cuts[q].at;
    assert CutPlaced(a, b, n, cuts[q]);
    var c, s := a.cells[n], b.cells[at];
    WholeColumns(a, b, n, cuts, wave, store, q, t);
    assert CellStep(s, wave(t), wave(t + 1), store(t, at), store(t + 1, at));
    StepParts(s, wave(t), wave(t + 1), store(t, at), store(t + 1, at));
    assert s.outs[k].Some?;
    SliceReads(c, s, cuts[q], wave(t), Evolve(c, wave, Gather(cuts, store), t), store(t, at), i, k);
  }

  lemma {:induction false} WholeRun(a: NL, b: NL, n: nat, cuts: seq<Cut>, wave: Wave, store: Store)
    requires SlicesOf(a, b, n, cuts) && Run(b, wave, store)
    ensures Run(a, wave, WholeStore(a.cells[n], cuts, n, wave, store))
  {
    var store' := WholeStore(a.cells[n], cuts, n, wave, store);
    forall t: nat ensures Consistent(a, wave(t)) {
      assert Consistent(b, wave(t));
      forall k | 0 <= k < |a.cells| ensures Holds(a.cells[k], wave(t)) {
        if k != n { assert a.cells[k] == b.cells[k]; }
      }
    }
    forall t: nat, k: nat | k < |a.cells|
      ensures CellStep(a.cells[k], wave(t), wave(t + 1), store'(t, k), store'(t + 1, k))
    {
      if k == n {
        WholeReads(a, b, n, cuts, wave, store, t);
        StepParts(a.cells[n], wave(t), wave(t + 1), store'(t, n), store'(t + 1, n));
      } else {
        assert a.cells[k] == b.cells[k];
        assert CellStep(b.cells[k], wave(t), wave(t + 1), store(t, k), store(t + 1, k));
      }
    }
  }

  // ----- a run of the memory is a run of the slices -----

  ghost function PartAt(store: Store, n: nat, lo: nat): Mem {
    (x: nat, j: nat) => store(0, n)(x, lo + j)
  }

  ghost function PartStoreOf(b: NL, cuts: seq<Cut>, n: nat, wave: Wave, store: Store, t: nat, k: nat): Mem {
    if k < |b.cells| && IsSliceNode(cuts, k) then
      var q :| 0 <= q < |cuts| && cuts[q].at == k;
      Evolve(b.cells[k], wave, PartAt(store, n, cuts[q].lo), t)
    else store(t, k)
  }

  ghost function PartStore(b: NL, cuts: seq<Cut>, n: nat, wave: Wave, store: Store): Store {
    (t: nat, k: nat) => PartStoreOf(b, cuts, n, wave, store, t, k)
  }

  lemma {:induction false} PartStoreAt(b: NL, cuts: seq<Cut>, n: nat, wave: Wave, store: Store, q: nat, t: nat)
    requires Apart(cuts) && q < |cuts| && cuts[q].at < |b.cells|
    ensures PartStore(b, cuts, n, wave, store)(t, cuts[q].at)
      == Evolve(b.cells[cuts[q].at], wave, PartAt(store, n, cuts[q].lo), t)
  {
    assert IsSliceNode(cuts, cuts[q].at);
    assert forall p :: 0 <= p < |cuts| && cuts[p].at == cuts[q].at ==> p == q;
  }

  lemma {:induction false} PartColumns(a: NL, b: NL, n: nat, cuts: seq<Cut>, wave: Wave, store: Store, q: nat, t: nat)
    requires SlicesOf(a, b, n, cuts) && Run(a, wave, store) && q < |cuts| && cuts[q].at < |b.cells|
    ensures Columns(store(t, n), Evolve(b.cells[cuts[q].at], wave, PartAt(store, n, cuts[q].lo), t), cuts[q])
  {
    var c, s, m := a.cells[n], b.cells[cuts[q].at], PartAt(store, n, cuts[q].lo);
    assert CutPlaced(a, b, n, cuts[q]);
    RunSteps(a, wave, store, n);
    EvolveSteps(s, wave, m);
    ColumnsKept(c, s, cuts[q], wave, Contents(store, n), (u: nat) => Evolve(s, wave, m, u), t);
  }

  lemma {:induction false} PartRead(c: Cell, s: Cell, cut: Cut, v: Valuation, v': Valuation, m: Mem, ms: Mem)
    requires IsMemory(c) && SliceOf(c, s, cut) && Columns(m, ms, cut) && Reads(c, v, v', m)
    ensures Reads(s, v, v', ms)
  {
    forall k {:trigger s.outs[k]} | 0 <= k < |s.outs| && s.outs[k].Some?
      ensures v'(s.outs[k].value) == if Edge(ClockOf(s), v, v') then ReadOut(s, v, ms, k) else v(s.outs[k].value)
    {
      var i: nat :| SameOut(c, s, cut.lo, i, k);
      SliceReads(c, s, cut, v, m, ms, i, k);
      assert c.outs[i].Some?;
    }
  }

  lemma {:induction false} PartReads(a: NL, b: NL, n: nat, cuts: seq<Cut>, wave: Wave, store: Store, q: nat, t: nat)
    requires SlicesOf(a, b, n, cuts) && Run(a, wave, store) && q < |cuts| && cuts[q].at < |b.cells|
    requires IsMemory(b.cells[cuts[q].at])
    ensures Reads(b.cells[cuts[q].at], wave(t), wave(t + 1),
      Evolve(b.cells[cuts[q].at], wave, PartAt(store, n, cuts[q].lo), t))
  {
    var c, s, v, v' := a.cells[n], b.cells[cuts[q].at], wave(t), wave(t + 1);
    var ms := Evolve(s, wave, PartAt(store, n, cuts[q].lo), t);
    assert CutPlaced(a, b, n, cuts[q]);
    PartColumns(a, b, n, cuts, wave, store, q, t);
    assert CellStep(c, v, v', store(t, n), store(t + 1, n));
    StepParts(c, v, v', store(t, n), store(t + 1, n));
    PartRead(c, s, cuts[q], v, v', store(t, n), ms);
  }

  lemma {:induction false} PartCellStep(a: NL, b: NL, n: nat, cuts: seq<Cut>, wave: Wave, store: Store, t: nat, k: nat)
    requires SlicesOf(a, b, n, cuts) && Run(a, wave, store) && k < |b.cells|
    ensures var store' := PartStore(b, cuts, n, wave, store);
      CellStep(b.cells[k], wave(t), wave(t + 1), store'(t, k), store'(t + 1, k))
  {
    var store' := PartStore(b, cuts, n, wave, store);
    if IsSliceNode(cuts, k) {
      var q :| 0 <= q < |cuts| && cuts[q].at == k;
      assert CutPlaced(a, b, n, cuts[q]);
      PartStoreAt(b, cuts, n, wave, store, q, t);
      PartStoreAt(b, cuts, n, wave, store, q, t + 1);
      PartReads(a, b, n, cuts, wave, store, q, t);
      StepParts(b.cells[k], wave(t), wave(t + 1), store'(t, k), store'(t + 1, k));
    } else if k < |a.cells| && k != n {
      assert b.cells[k] == a.cells[k];
      assert CellStep(a.cells[k], wave(t), wave(t + 1), store(t, k), store(t + 1, k));
    }
  }

  lemma {:induction false} PartRun(a: NL, b: NL, n: nat, cuts: seq<Cut>, wave: Wave, store: Store)
    requires SlicesOf(a, b, n, cuts) && Run(a, wave, store)
    ensures Run(b, wave, PartStore(b, cuts, n, wave, store))
  {
    forall t: nat ensures Consistent(b, wave(t)) {
      assert Consistent(a, wave(t));
      forall k | 0 <= k < |b.cells| ensures Holds(b.cells[k], wave(t)) {
        if k < |a.cells| && k != n {
          assert a.cells[k] == b.cells[k];
        } else if IsSliceNode(cuts, k) {
          var q :| 0 <= q < |cuts| && cuts[q].at == k;
          assert CutPlaced(a, b, n, cuts[q]);
        }
      }
    }
    forall t: nat, k: nat | k < |b.cells|
      ensures CellStep(b.cells[k], wave(t), wave(t + 1), PartStore(b, cuts, n, wave, store)(t, k),
        PartStore(b, cuts, n, wave, store)(t + 1, k))
    {
      PartCellStep(a, b, n, cuts, wave, store, t, k);
    }
  }

  /** A memory may be replaced by its slices. */
  lemma {:induction false} SlicesEquivalent(a: NL, b: NL, n: nat, cuts: seq<Cut>)
    requires SlicesOf(a, b, n, cuts)
    ensures RunEquivalent(a, b)
  {
    forall wave: Wave | Shows(b, wave) ensures Shows(a, wave) {
      var store :| Run(b, wave, store);
      WholeRun(a, b, n, cuts, wave, store);
    }
    forall wave: Wave | Shows(a, wave) ensures ShowsBelow(b, a.nets, wave) {
      var store :| Run(a, wave, store);
      PartRun(a, b, n, cuts, wave, store);
      assert WavesAgree(a.nets, wave, wave);
    }
  }
}
