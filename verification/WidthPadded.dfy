/** Filling up the data and output ports of a RAM changes no behaviour, whatever the pad net carries. */
module WidthPadded {
  import opened Wrappers
  import opened Bits
  import opened Semantics
  import opened Runs
  import opened Netlists
  import opened MemoryPorts
  import opened BankSplit
  import opened SpSplit
  import opened WidthSlices
  import opened WidthParts
  import opened WidthPad

  /** Enough of a RAM of `d` columns to go on filling up its ports. */
  ghost predicate Padding(c: Cell, d: nat) {
    && IsMemory(c) && DistinctRoles(c.inPorts) && Offset(c.inPorts, |c.inPorts|) == |c.ins| && AllConnected(c.ins)
    && (forall k :: 0 <= k < |c.inPorts| && IsData(c.kind, c.inPorts[k].role) ==> d <= c.inPorts[k].width)
    && (if c.kind.SpMemory? then |c.outPorts| == 1 && c.outPorts[0] == |c.outs|
        else |c.outPorts| == 2 && c.outPorts[0] + c.outPorts[1] == |c.outs|)
    && (forall k :: 0 <= k < |c.outs| && c.outs[k].Some? ==> OutBit(c, k) < d)
  }

  lemma {:induction false} RamPadding(c: Cell, d: nat)
    requires Ram(c, d)
    ensures Padding(c, d)
  {
  }

  /** The columns that matter stay where they are. */
  ghost predicate SameColumns(c: Cell, s: Cell, d: nat) {
    && IsMemory(c) && SliceOf(c, s, Cut(0, 0, d))
    && forall i {:trigger c.outs[i]} :: 0 <= i < |c.outs| && c.outs[i].Some? ==> exists k: nat :: SameOut(c, s, 0, i, k)
  }

  lemma {:induction false} SameColumnsDepth(c: Cell, s: Cell, d: nat)
    requires SameColumns(c, s, d)
    ensures SameDepth(c, s)
  {
    SliceDepth(c, s, Cut(0, 0, d));
  }

  lemma {:induction false} SameColumnsEquivalent(a: NL, b: NL, n: nat, s: Cell, d: nat)
    requires n < |a.cells| && b == NL(a.cells[n := s], a.nets, a.zero, a.one, a.pad) && SameColumns(a.cells[n], s, d)
    ensures RunEquivalent(a, b)
  {
    hide SameOut, Accesses, RoleSlots;
    var c, cuts := a.cells[n], [Cut(n, 0, d)];
    assert SliceOf(c, s, cuts[0]) by {
      forall k | 0 <= k < |Accesses(c.kind)| ensures AccessOfSlice(c, s, cuts[0], k) {
        assert AccessOfSlice(c, s, Cut(0, 0, d), k);
      }
    }
    assert CutPlaced(a, b, n, cuts[0]);
    assert IsSliceNode(cuts, n);
    forall i | 0 <= i < |c.outs| && c.outs[i].Some? ensures OutPlaced(c, b, cuts, i) {
      var k: nat :| SameOut(c, s, 0, i, k);
      assert SameOut(c, b.cells[cuts[0].at], cuts[0].lo, i, k);
    }
    SlicesEquivalent(a, b, n, cuts);
  }

  // ----- input ports -----

  lemma {:induction false} OffsetPadded(ports: seq<Port>, k: nat, target: nat, p: nat)
    requires k < |ports| && ports[k].width <= target && p <= |ports|
    ensures Offset(ports[k := ports[k].(width := target)], p)
      == Offset(ports, p) + (if p > k then target - ports[k].width else 0)
  {
    if p > 0 { OffsetPadded(ports, k, target, p - 1); }
  }

  lemma {:induction false} InsertedSlice(s: seq<Option<nat>>, at: nat, filler: seq<Option<nat>>, lo: nat, len: nat)
    requires at <= |s| && lo + len <= |s|
    ensures lo + len <= at ==> Inserted(s, at, filler)[lo..lo + len] == s[lo..lo + len]
    ensures lo + len == at ==> Inserted(s, at, filler)[lo..lo + len + |filler|] == s[lo..lo + len] + filler
    ensures at <= lo ==> Inserted(s, at, filler)[lo + |filler|..lo + |filler| + len] == s[lo..lo + len]
  {
  }

  /** Only port `k` changes, and it starts with the pins it had. */
  lemma {:induction false} PaddedRole(c: Cell, k: nat, target: nat, pad: nat, role: Role)
    requires k < |c.inPorts| && c.inPorts[k].width <= target && DistinctRoles(c.inPorts)
    requires Offset(c.inPorts, |c.inPorts|) == |c.ins|
    ensures Offset(c.inPorts, k) + c.inPorts[k].width <= |c.ins|
    ensures role != c.inPorts[k].role ==> RoleSlots(PaddedIn(c, k, target, pad), role) == RoleSlots(c, role)
    ensures role == c.inPorts[k].role ==>
      |RoleSlots(c, role)| == c.inPorts[k].width &&
      RoleSlots(PaddedIn(c, k, target, pad), role) == RoleSlots(c, role) + Pads(target - c.inPorts[k].width, pad)
  {
    hide PaddedIn, Inserted;
    OffsetOrder(c.inPorts, k, |c.inPorts|);
    PaddedFields(c, k, target, pad);
    var s := PaddedIn(c, k, target, pad);
    FindPortByRoles(c.inPorts, s.inPorts, role);
    var p := FindPort(c.inPorts, role);
    if p < |c.inPorts| { PaddedSlot(c, k, target, pad, p); }
    if role == c.inPorts[k].role { FindPortIs(c.inPorts, role, k); }
  }

  lemma {:induction false} PaddedFields(c: Cell, k: nat, target: nat, pad: nat)
    requires k < |c.inPorts| && c.inPorts[k].width <= target && Offset(c.inPorts, k) + c.inPorts[k].width <= |c.ins|
    ensures PaddedIn(c, k, target, pad).inPorts == c.inPorts[k := c.inPorts[k].(width := target)]
    ensures PaddedIn(c, k, target, pad).ins ==
      Inserted(c.ins, Offset(c.inPorts, k) + c.inPorts[k].width, Pads(target - c.inPorts[k].width, pad))
  {
  }

  lemma {:induction false} PortAt(ports: seq<Port>, s: seq<Option<nat>>, p: nat, lo: nat, len: nat)
    requires p < |ports| && lo == Offset(ports, p) && len == ports[p].width && lo + len <= |s|
    ensures PortOf(ports, s, p) == s[lo..lo + len]
  {
  }

  lemma {:induction false} PaddedSlot(c: Cell, k: nat, target: nat, pad: nat, p: nat)
    requires k < |c.inPorts| && c.inPorts[k].width <= target && Offset(c.inPorts, |c.inPorts|) == |c.ins|
    requires p < |c.inPorts|
    requires Offset(c.inPorts, k) + c.inPorts[k].width <= |c.ins|
    ensures var s := PaddedIn(c, k, target, pad);
      && (p != k ==> PortOf(s.inPorts, s.ins, p) == PortOf(c.inPorts, c.ins, p))
      && (p == k ==> |PortOf(c.inPorts, c.ins, p)| == c.inPorts[k].width
                     && PortOf(s.inPorts, s.ins, p)
                       == PortOf(c.inPorts, c.ins, p) + Pads(target - c.inPorts[k].width, pad))
  {
    hide Offset, Pads, PortOf;
    var more, lo, len := target - c.inPorts[k].width, Offset(c.inPorts, p), c.inPorts[p].width;
    var s := PaddedIn(c, k, target, pad);
    OffsetOrder(c.inPorts, p, |c.inPorts|);
    PortAt(c.inPorts, c.ins, p, lo, len);
    OffsetPadded(c.inPorts, k, target, p);
    InsertedSlice(c.ins, Offset(c.inPorts, k) + c.inPorts[k].width, Pads(more, pad), lo, len);
    if p < k {
      OffsetOrder(c.inPorts, p, k);
      PortAt(s.inPorts, s.ins, p, lo, len);
    } else if k < p {
      OffsetOrder(c.inPorts, k, p);
      PortAt(s.inPorts, s.ins, p, lo + more, len);
    } else {
      PortAt(s.inPorts, s.ins, p, lo, len + more);
    }
  }

  /** A filled-up data port leaves the first `d` columns as they were. */
  lemma {:induction false} PaddedAccess(c: Cell, k: nat, target: nat, pad: nat, d: nat, p: nat)
    requires Padding(c, d) && k < |c.inPorts| && c.inPorts[k].width <= target && IsData(c.kind, c.inPorts[k].role)
    requires p < |Accesses(c.kind)|
    ensures Offset(c.inPorts, k) + c.inPorts[k].width <= |c.ins|
    ensures AccessOfSlice(c, PaddedIn(c, k, target, pad), Cut(0, 0, d), p)
  {
    hide PaddedIn, RoleSlots, FindPort;
    var role := c.inPorts[k].role;
    PaddedRole(c, k, target, pad, Accesses(c.kind)[p].addr);
    PaddedRole(c, k, target, pad, Accesses(c.kind)[p].we);
    PaddedRole(c, k, target, pad, Accesses(c.kind)[p].data);
    assert role != Accesses(c.kind)[p].addr && role != Accesses(c.kind)[p].we;
  }

  lemma {:induction false} PaddedInColumns(c: Cell, k: nat, target: nat, pad: nat, d: nat)
    requires Padding(c, d) && k < |c.inPorts| && c.inPorts[k].width <= target && IsData(c.kind, c.inPorts[k].role)
    ensures Offset(c.inPorts, k) + c.inPorts[k].width <= |c.ins|
    ensures SameColumns(c, PaddedIn(c, k, target, pad), d) && Padding(PaddedIn(c, k, target, pad), d)
  {
    hide RoleSlots, Accesses;
    OffsetOrder(c.inPorts, k, |c.inPorts|);
    var s := PaddedIn(c, k, target, pad);
    PaddedRole(c, k, target, pad, Clk);
    forall p | 0 <= p < |Accesses(c.kind)| ensures AccessOfSlice(c, s, Cut(0, 0, d), p) {
      PaddedAccess(c, k, target, pad, d, p);
    }
    forall i {:trigger c.outs[i]} | 0 <= i < |c.outs| ensures SameOut(c, s, 0, i, i) {
    }
    OffsetPadded(c.inPorts, k, target, |c.inPorts|);
  }

  // ----- output ports -----

  /** Where output `i` is after `more` slots were put in at slot `at`. */
  function After(i: nat, at: nat, more: nat): nat {
    if i < at then i else i + more
  }

  lemma {:induction false} PaddedOutputs(c: Cell, j: nat, at: nat, target: nat, i: nat)
    requires IsMemory(c) && j < |c.outPorts| <= 2 && c.outPorts[j] <= target && i < |c.outs|
    requires c.kind.SpMemory? ==> |c.outPorts| == 1 && at == |c.outs|
    requires c.kind.DpMemory? ==> |c.outPorts| == 2 && c.outPorts[0] + c.outPorts[1] == |c.outs|
    requires c.kind.DpMemory? ==> at == if j == 0 then c.outPorts[0] else |c.outs|
    ensures SameOut(c, PaddedOut(c, j, at, target), 0, i, After(i, at, target - c.outPorts[j]))
  {
  }

  lemma {:induction false} PaddedOutColumns(c: Cell, j: nat, at: nat, target: nat, d: nat)
    requires Padding(c, d) && j < |c.outPorts| && c.outPorts[j] <= target
    requires at == if c.kind.DpMemory? && j == 0 then c.outPorts[0] else |c.outs|
    ensures at <= |c.outs| && SameColumns(c, PaddedOut(c, j, at, target), d) && Padding(PaddedOut(c, j, at, target), d)
  {
    hide RoleSlots, Accesses, SameOut, OutAccess;
    var s, more := PaddedOut(c, j, at, target), target - c.outPorts[j];
    forall p | 0 <= p < |Accesses(c.kind)| ensures AccessOfSlice(c, s, Cut(0, 0, d), p) {
      SameRoles(c, j, at, target, Accesses(c.kind)[p].addr);
      SameRoles(c, j, at, target, Accesses(c.kind)[p].we);
      SameRoles(c, j, at, target, Accesses(c.kind)[p].data);
    }
    SameRoles(c, j, at, target, Clk);
    forall i {:trigger c.outs[i]} | 0 <= i < |c.outs| && c.outs[i].Some?
      ensures exists k: nat :: SameOut(c, s, 0, i, k) {
      PaddedOutputs(c, j, at, target, i);
    }
    forall k {:trigger s.outs[k]} | 0 <= k < |s.outs| && s.outs[k].Some?
      ensures OutBit(s, k) < d && exists i: nat :: SameOut(c, s, 0, i, k)
    {
      var i: nat := if k < at then k else k - more;
      PaddedOutputs(c, j, at, target, i);
      PaddedOutBit(c, s, i, k, d);
    }
  }

  lemma {:induction false} PaddedOutBit(c: Cell, s: Cell, i: nat, k: nat, d: nat)
    requires SameOut(c, s, 0, i, k) && OutBit(c, i) < d
    ensures OutBit(s, k) < d
  {
  }

  lemma {:induction false} SameRoles(c: Cell, j: nat, at: nat, target: nat, role: Role)
    requires j < |c.outPorts| && c.outPorts[j] <= target && at <= |c.outs|
    ensures RoleSlots(PaddedOut(c, j, at, target), role) == RoleSlots(c, role)
  {
  }
}
