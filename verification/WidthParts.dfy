/** The pin lists of a width slice: its share of every data port and all of the other ports; and what the memory it
    was cut from has left. */
module WidthParts {
  import opened Wrappers
  import opened Bits
  import opened Semantics
  import opened Runs
  import opened Netlists
  import opened MemoryPorts
  import opened BankSplit
  import opened SpSplit
  import opened WidthSlices

  predicate IsData(kind: Kind, role: Role) {
    if kind.SpMemory? then role == Data else role == Data1 || role == Data2
  }

  /** Output ports as ports: every one of them is a data port. */
  function OutsAsPorts(outPorts: seq<nat>): (r: seq<Port>)
    ensures |r| == |outPorts| && forall j :: 0 <= j < |r| ==> r[j] == Port(Data, outPorts[j])
  {
    seq(|outPorts|, (j: nat) requires j < |outPorts| => Port(Data, outPorts[j]))
  }

  /** A RAM whose words have `d` bits on every data port and output port. */
  predicate Ram(c: Cell, d: nat) {
    && IsMemory(c) && PortShape(c) && d >= 1
    && (forall k :: 0 <= k < |c.inPorts| && IsData(c.kind, c.inPorts[k].role) ==> c.inPorts[k].width == d)
    && (if c.kind.SpMemory? then HasRole(c, Data) && c.outPorts == [d] && |c.outs| == d
        else HasRole(c, Data1) && HasRole(c, Data2) && c.outPorts == [d, d] && |c.outs| == 2 * d)
  }

  /** What the slice of columns `lo` to `lo + take` gets of port `p`. */
  function Part(kind: Kind, ports: seq<Port>, s: seq<Option<nat>>, lo: nat, take: nat, p: nat): (r: seq<Option<nat>>)
    requires p < |ports|
  {
    if IsData(kind, ports[p].role) then Slice(s, Offset(ports, p) + lo, take) else PortOf(ports, s, p)
  }

  /** The parts of the first `j` ports, one behind the other. */
  function Parts(kind: Kind, ports: seq<Port>, s: seq<Option<nat>>, lo: nat, take: nat, j: nat): (r: seq<Option<nat>>)
    requires j <= |ports|
  {
    if j == 0 then [] else Parts(kind, ports, s, lo, take, j - 1) + Part(kind, ports, s, lo, take, j - 1)
  }

  /** The ports of the slice once `j` of them are filled. */
  function PartPorts(kind: Kind, ports: seq<Port>, take: nat, j: nat): (r: seq<Port>)
    ensures |r| == |ports| && forall p :: 0 <= p < |r| ==> r[p] == PartPort(kind, ports[p], take, p < j)
  {
    seq(|ports|, (p: nat) requires p < |ports| => PartPort(kind, ports[p], take, p < j))
  }

  function PartPort(kind: Kind, port: Port, take: nat, filled: bool): Port {
    Port(port.role, if !filled then 0 else if IsData(kind, port.role) then take else port.width)
  }

  function PartOuts(outPorts: seq<nat>, take: nat, j: nat): (r: seq<nat>)
    ensures |r| == |outPorts| && forall p :: 0 <= p < |r| ==> r[p] == if p < j then take else 0
  {
    seq(|outPorts|, (p: nat) => if p < j then take else 0)
  }

  function SliceCell(c: Cell, lo: nat, take: nat): Cell {
    Cell(c.kind,
         Parts(c.kind, c.inPorts, c.ins, lo, take, |c.inPorts|),
         Parts(SpMemory, OutsAsPorts(c.outPorts), c.outs, lo, take, |c.outPorts|),
         PartPorts(c.kind, c.inPorts, take, |c.inPorts|),
         PartOuts(c.outPorts, take, |c.outPorts|))
  }

  /** The data ports reach up to `lo + take`, and the pins are the ports'. */
  predicate Reach(kind: Kind, ports: seq<Port>, s: seq<Option<nat>>, upto: nat) {
    && Offset(ports, |ports|) == |s|
    && forall p :: 0 <= p < |ports| && IsData(kind, ports[p].role) ==> upto <= ports[p].width
  }

  lemma {:induction false} PartSize(kind: Kind, ports: seq<Port>, s: seq<Option<nat>>, lo: nat, take: nat, p: nat)
    requires p < |ports| && Reach(kind, ports, s, lo + take)
    ensures |Part(kind, ports, s, lo, take, p)| == PartPort(kind, ports[p], take, true).width
    ensures Offset(ports, p) + ports[p].width <= |s|
    ensures IsData(kind, ports[p].role) ==>
      Offset(ports, p) + lo + take <= |s|
        && Part(kind, ports, s, lo, take, p) == s[Offset(ports, p) + lo..Offset(ports, p) + lo + take]
    ensures !IsData(kind, ports[p].role) ==>
      Part(kind, ports, s, lo, take, p) == s[Offset(ports, p)..Offset(ports, p) + ports[p].width]
  {
    OffsetOrder(ports, p, |ports|);
  }

  /** The parts lie where the ports of the slice say. */
  lemma {:induction false} PartsSize(kind: Kind, ports: seq<Port>, s: seq<Option<nat>>, lo: nat, take: nat, j: nat)
    requires j <= |ports| && Reach(kind, ports, s, lo + take)
    ensures |Parts(kind, ports, s, lo, take, j)| == Offset(PartPorts(kind, ports, take, |ports|), j)
  {
    hide Part, PartPort, Reach, IsData, PortOf, Slice;
    if j > 0 {
      PartsSize(kind, ports, s, lo, take, j - 1);
      PartSize(kind, ports, s, lo, take, j - 1);
    }
  }

  lemma {:induction false} PartsAt(kind: Kind, ports: seq<Port>, s: seq<Option<nat>>, lo: nat, take: nat, p: nat,
                                   j: nat)
    requires p < j <= |ports| && Reach(kind, ports, s, lo + take)
    ensures var at := Offset(PartPorts(kind, ports, take, |ports|), p);
      PartPort(kind, ports[p], take, true).width + at <= |Parts(kind, ports, s, lo, take, j)|
      && Parts(kind, ports, s, lo, take, j)[at..at + PartPort(kind, ports[p], take, true).width]
        == Part(kind, ports, s, lo, take, p)
  {
    hide Part, PartPort, Reach, IsData, PortOf, Slice;
    if p < j - 1 {
      PartsAt(kind, ports, s, lo, take, p, j - 1);
    } else {
      PartsSize(kind, ports, s, lo, take, p);
      PartSize(kind, ports, s, lo, take, p);
    }
  }

  /** Port `p` of the slice carries part `p`. */
  lemma {:induction false} SlicePort(kind: Kind, ports: seq<Port>, s: seq<Option<nat>>, lo: nat, take: nat, p: nat)
    requires p < |ports| && Reach(kind, ports, s, lo + take)
    ensures PortOf(PartPorts(kind, ports, take, |ports|), Parts(kind, ports, s, lo, take, |ports|), p)
      == Part(kind, ports, s, lo, take, p)
  {
    PartsAt(kind, ports, s, lo, take, p, |ports|);
    hide Part, PartPort, Reach, IsData, Parts;
  }

  lemma {:induction false} RamReach(c: Cell, d: nat, upto: nat)
    requires Ram(c, d) && upto <= d
    ensures Reach(c.kind, c.inPorts, c.ins, upto)
    ensures Reach(SpMemory, OutsAsPorts(c.outPorts), c.outs, upto)
  {
    var ports := OutsAsPorts(c.outPorts);
    OffsetStep(ports, 0);
    if c.kind.DpMemory? { OffsetStep(ports, 1); }
  }

  lemma {:induction false} SliceRole(c: Cell, d: nat, lo: nat, take: nat, role: Role)
    requires Ram(c, d) && lo + take <= d
    ensures IsData(c.kind, role) && HasRole(c, role) ==>
      |RoleSlots(c, role)| == d && RoleSlots(SliceCell(c, lo, take), role) == RoleSlots(c, role)[lo..lo + take]
    ensures !(IsData(c.kind, role) && HasRole(c, role)) ==>
      RoleSlots(SliceCell(c, lo, take), role) == RoleSlots(c, role)
  {
    hide OutsAsPorts;
    var k := FindPort(c.inPorts, role);
    var pp := PartPorts(c.kind, c.inPorts, take, |c.inPorts|);
    RamReach(c, d, lo + take);
    assert forall p {:trigger pp[p]} :: 0 <= p < |pp| ==> pp[p].role == c.inPorts[p].role;
    FindPortByRoles(c.inPorts, pp, role);
    if k < |c.inPorts| {
      SlicePort(c.kind, c.inPorts, c.ins, lo, take, k);
      RolePart(c, d, lo, take, k);
      hide Part, Parts, PartPort, Reach, Offset, Slice, FindPort, PortOf, IsData;
    }
    hide Part, Parts, PartPort, Reach, Offset, Slice, FindPort, IsData;
  }

  lemma {:induction false} RolePart(c: Cell, d: nat, lo: nat, take: nat, k: nat)
    requires Ram(c, d) && lo + take <= d && k < |c.inPorts|
    ensures IsData(c.kind, c.inPorts[k].role) ==>
      |PortOf(c.inPorts, c.ins, k)| == d
        && Part(c.kind, c.inPorts, c.ins, lo, take, k) == PortOf(c.inPorts, c.ins, k)[lo..lo + take]
    ensures !IsData(c.kind, c.inPorts[k].role) ==>
      Part(c.kind, c.inPorts, c.ins, lo, take, k) == PortOf(c.inPorts, c.ins, k)
  {
    OffsetOrder(c.inPorts, k, |c.inPorts|);
    hide Offset;
    SliceOfSlice(c.ins, Offset(c.inPorts, k), c.inPorts[k].width, lo, take);
  }

  lemma {:induction false} SliceOfSlice(s: seq<Option<nat>>, at: nat, d: nat, lo: nat, take: nat)
    requires at + d <= |s|
    ensures lo + take <= d ==> s[at..at + d][lo..lo + take] == s[at + lo..at + lo + take]
  {
    if lo + take <= d {
      var x, y := s[at..at + d][lo..lo + take], s[at + lo..at + lo + take];
      assert |x| == |y| && forall i {:trigger x[i]} :: 0 <= i < |x| ==> x[i] == y[i];
    }
  }

  lemma {:induction false} FirstParts(kind: Kind, ports: seq<Port>, s: seq<Option<nat>>, lo: nat, take: nat)
    ensures |ports| == 1 ==> Parts(kind, ports, s, lo, take, |ports|) == Part(kind, ports, s, lo, take, 0)
    ensures |ports| == 2 ==>
      Parts(kind, ports, s, lo, take, |ports|) == Part(kind, ports, s, lo, take, 0) + Part(kind, ports, s, lo, take, 1)
  {
    hide Part;
    if |ports| == 2 {
      assert Parts(kind, ports, s, lo, take, 1) == Part(kind, ports, s, lo, take, 0);
    }
  }

  /** The outputs of the slice: its columns of the first access port, then of the second one. */
  predicate OutsCut(c: Cell, s: Cell, d: nat, lo: nat, take: nat) {
    && IsMemory(c) && lo + take <= d && s.kind == c.kind
    && if c.kind.SpMemory? then
         |c.outs| == d && c.outPorts == [d] && s.outPorts == [take] && s.outs == c.outs[lo..lo + take]
       else
         |c.outs| == 2 * d && c.outPorts == [d, d] && s.outPorts == [take, take]
         && s.outs == c.outs[lo..lo + take] + c.outs[d + lo..d + lo + take]
  }

  lemma {:induction false} SliceOuts(c: Cell, d: nat, lo: nat, take: nat)
    requires Ram(c, d) && lo + take <= d
    ensures OutsCut(c, SliceCell(c, lo, take), d, lo, take)
  {
    var ports := OutsAsPorts(c.outPorts);
    assert ports == if c.kind.SpMemory? then [Port(Data, d)] else [Port(Data, d), Port(Data, d)];
    FirstParts(SpMemory, ports, c.outs, lo, take);
    OutPart(ports, c.outs, d, lo, take);
    hide Part, Parts, Offset;
  }

  lemma {:induction false} OutPart(ports: seq<Port>, s: seq<Option<nat>>, d: nat, lo: nat, take: nat)
    requires 1 <= |ports| <= 2 && ports[0] == Port(Data, d) && (|ports| == 2 ==> ports[1] == Port(Data, d))
    requires |s| == (if |ports| == 1 then d else 2 * d) && lo + take <= d
    ensures Part(SpMemory, ports, s, lo, take, 0) == s[lo..lo + take]
    ensures |ports| == 2 ==> Part(SpMemory, ports, s, lo, take, 1) == s[d + lo..d + lo + take]
  {
    OffsetStep(ports, 0);
  }

  /** Where output `k` of the slice comes from. */
  lemma {:induction false} SliceOutput(c: Cell, s: Cell, d: nat, lo: nat, take: nat, k: nat)
    requires OutsCut(c, s, d, lo, take) && k < |s.outs|
    ensures OutBit(s, k) < take && SameOut(c, s, lo, if k < take then lo + k else d + lo + (k - take), k)
  {
  }

  /** An output whose column lies in the slice went there. */
  lemma {:induction false} OutputSlice(c: Cell, s: Cell, d: nat, lo: nat, take: nat, i: nat)
    requires OutsCut(c, s, d, lo, take) && i < |c.outs| && lo <= OutBit(c, i) < lo + take
    ensures exists k: nat :: SameOut(c, s, lo, i, k)
  {
    hide SameOut;
    var k: nat := if i < d then i - lo else i - d - lo + take;
    SliceOutput(c, s, d, lo, take, k);
  }

  lemma {:induction false} SliceAccess(c: Cell, d: nat, lo: nat, take: nat, at: nat, k: nat)
    requires Ram(c, d) && lo + take <= d && k < |Accesses(c.kind)|
    ensures AccessOfSlice(c, SliceCell(c, lo, take), Cut(at, lo, take), k)
  {
    var p := Accesses(c.kind)[k];
    assert !IsData(c.kind, p.addr) && !IsData(c.kind, p.we) && IsData(c.kind, p.data) && HasRole(c, p.data);
    SliceRole(c, d, lo, take, p.addr);
    SliceRole(c, d, lo, take, p.we);
    SliceRole(c, d, lo, take, p.data);
    hide SliceCell, RoleSlots, IsData, Accesses, HasRole, Ram, SameData;
    DataSlices(RoleSlots(c, p.data), RoleSlots(SliceCell(c, lo, take), p.data), lo, take);
  }

  lemma {:induction false} DataSlices(whole: seq<Option<nat>>, part: seq<Option<nat>>, lo: nat, take: nat)
    requires lo + take <= |whole| && part == whole[lo..lo + take]
    ensures forall j :: 0 <= j < take ==> SameData(whole, part, lo, j)
  {
  }

  lemma {:induction false} SliceIsSlice(c: Cell, d: nat, lo: nat, take: nat, at: nat)
    requires Ram(c, d) && lo + take <= d
    ensures SliceOf(c, SliceCell(c, lo, take), Cut(at, lo, take))
  {
    hide SliceCell, RoleSlots, AccessOfSlice, Ram, SameOut;
    var s, cut := SliceCell(c, lo, take), Cut(at, lo, take);
    SliceRole(c, d, lo, take, Clk);
    SliceOuts(c, d, lo, take);
    forall k | 0 <= k < |Accesses(c.kind)| ensures AccessOfSlice(c, s, cut, k) {
      SliceAccess(c, d, lo, take, at, k);
    }
    forall k {:trigger s.outs[k]} | 0 <= k < |s.outs| && s.outs[k].Some?
      ensures OutBit(s, k) < cut.wid && exists i :: SameOut(c, s, cut.lo, i, k)
    {
      SliceOutput(c, s, d, lo, take, k);
    }
  }

  /** A slice is again a RAM, of its own width. */
  lemma {:induction false} SliceIsRam(c: Cell, d: nat, lo: nat, take: nat)
    requires Ram(c, d) && lo + take <= d && take >= 1
    ensures Ram(SliceCell(c, lo, take), take)
  {
    hide Part, HasRole;
    var s := SliceCell(c, lo, take);
    RamReach(c, d, lo + take);
    SliceOuts(c, d, lo, take);
    SliceShape(c.kind, c.inPorts, c.ins, lo, take);
    PartsConnected(SpMemory, OutsAsPorts(c.outPorts), c.outs, lo, take, |c.outPorts|);
    hide Parts, Reach, Offset, DistinctRoles;
    RamRoles(c, s, d, take);
  }

  lemma {:induction false} RamRoles(c: Cell, s: Cell, d: nat, take: nat)
    requires Ram(c, d) && s.kind == c.kind && PortShape(s) && take >= 1
    requires s.inPorts == PartPorts(c.kind, c.inPorts, take, |c.inPorts|)
    requires c.kind.SpMemory? ==> s.outPorts == [take] && |s.outs| == take
    requires c.kind.DpMemory? ==> s.outPorts == [take, take] && |s.outs| == 2 * take
    ensures Ram(s, take)
  {
    hide Offset, FindPort;
    FindPortByRoles(c.inPorts, s.inPorts, Data);
    FindPortByRoles(c.inPorts, s.inPorts, Data1);
    FindPortByRoles(c.inPorts, s.inPorts, Data2);
    hide PortShape, FindPort;
  }

  lemma {:induction false} SliceShape(kind: Kind, ports: seq<Port>, s: seq<Option<nat>>, lo: nat, take: nat)
    requires Reach(kind, ports, s, lo + take) && AllConnected(s) && take >= 1
    requires DistinctRoles(ports) && forall k :: 0 <= k < |ports| ==> ports[k].width >= 1
    ensures var pp := PartPorts(kind, ports, take, |ports|);
      && Offset(pp, |pp|) == |Parts(kind, ports, s, lo, take, |ports|)|
        && AllConnected(Parts(kind, ports, s, lo, take, |ports|))
      && DistinctRoles(pp) && forall k :: 0 <= k < |pp| ==> pp[k].width >= 1 && pp[k].role == ports[k].role
  {
    PartsSize(kind, ports, s, lo, take, |ports|);
    PartsConnected(kind, ports, s, lo, take, |ports|);
    hide Parts, Offset, Reach;
  }

  lemma {:induction false} PartsConnected(kind: Kind, ports: seq<Port>, s: seq<Option<nat>>, lo: nat, take: nat, j: nat)
    requires j <= |ports| && Reach(kind, ports, s, lo + take) && AllConnected(s)
    ensures AllConnected(Parts(kind, ports, s, lo, take, j))
  {
    hide Slice;
    if j > 0 {
      hide Part, AllConnected, Reach;
      PartsConnected(kind, ports, s, lo, take, j - 1);
      PartConnected(kind, ports, s, lo, take, j - 1);
      BothConnected(Parts(kind, ports, s, lo, take, j - 1), Part(kind, ports, s, lo, take, j - 1));
    }
  }

  lemma {:induction false} BothConnected(s: seq<Option<nat>>, t: seq<Option<nat>>)
    requires AllConnected(s) && AllConnected(t)
    ensures AllConnected(s + t)
  {
  }

  lemma {:induction false} PartConnected(kind: Kind, ports: seq<Port>, s: seq<Option<nat>>, lo: nat, take: nat, p: nat)
    requires p < |ports| && AllConnected(s)
    ensures AllConnected(Part(kind, ports, s, lo, take, p))
  {
  }

  // ----- what is left of the memory -----

  function At(ports: seq<Port>, s: seq<Option<nat>>, p: nat, q: nat): Option<nat> {
    if Offset(ports, p) + q < |s| then s[Offset(ports, p) + q] else None
  }

  /** `s` is `s0` without the first `gone[p]` pins of every port `p`. */
  ghost predicate Gone(ports: seq<Port>, s0: seq<Option<nat>>, s: seq<Option<nat>>, gone: seq<nat>) {
    && |gone| == |ports| && |s| == |s0|
    && forall p: nat, q: nat :: p < |ports| && q < ports[p].width ==>
         At(ports, s, p, q) == if q < gone[p] then None else At(ports, s0, p, q)
  }

  function Cleared(s: seq<Option<nat>>, at: nat, count: nat): (r: seq<Option<nat>>)
    requires at + count <= |s|
    ensures |r| == |s|
    ensures forall i {:trigger r[i]} :: 0 <= i < |r| ==> r[i] == if at <= i < at + count then None else s[i]
  {
    s[..at] + Nones(count) + s[at + count..]
  }

  /** The next `count` pins of port `p` are still there, and can be taken. */
  lemma {:induction false} GoneStep(ports: seq<Port>, s0: seq<Option<nat>>, s: seq<Option<nat>>, gone: seq<nat>,
                                    p: nat, count: nat)
    requires Gone(ports, s0, s, gone) && Offset(ports, |ports|) == |s0|
    requires p < |ports| && gone[p] + count <= ports[p].width
    ensures var at := Offset(ports, p) + gone[p];
      at + count <= |s| && s[at..at + count] == s0[at..at + count]
      && Gone(ports, s0, Cleared(s, at, count), gone[p := gone[p] + count])
  {
    var at := Offset(ports, p) + gone[p];
    OffsetOrder(ports, p, |ports|);
    forall i {:trigger s[i]} | at <= i < at + count ensures s[i] == s0[i] {
      var q: nat := i - Offset(ports, p);
      assert At(ports, s, p, q) == At(ports, s0, p, q);
    }
    var s', gone' := Cleared(s, at, count), gone[p := gone[p] + count];
    forall r: nat, q: nat | r < |ports| && q < ports[r].width
      ensures At(ports, s', r, q) == if q < gone'[r] then None else At(ports, s0, r, q)
    {
      assert At(ports, s, r, q) == if q < gone[r] then None else At(ports, s0, r, q);
      OffsetOrder(ports, r, |ports|);
      if r < p { OffsetOrder(ports, r, p); }
      if p < r { OffsetOrder(ports, p, r); }
    }
  }

  /** Every pin lies in some port. */
  lemma {:induction false} PortOfPin(ports: seq<Port>, k: nat, x: nat) returns (p: nat, q: nat)
    requires k <= |ports| && x < Offset(ports, k)
    ensures p < k && q < ports[p].width && x == Offset(ports, p) + q
  {
    if x >= Offset(ports, k - 1) {
      p, q := k - 1, x - Offset(ports, k - 1);
    } else {
      p, q := PortOfPin(ports, k - 1, x);
    }
  }

  lemma {:induction false} AllGone(ports: seq<Port>, s0: seq<Option<nat>>, s: seq<Option<nat>>, gone: seq<nat>)
    requires Gone(ports, s0, s, gone) && Offset(ports, |ports|) == |s0|
    requires forall p :: 0 <= p < |ports| ==> gone[p] == ports[p].width
    ensures forall i :: 0 <= i < |s| ==> s[i] == None
  {
    forall i | 0 <= i < |s| ensures s[i] == None {
      var p, q := PortOfPin(ports, |ports|, i);
      assert At(ports, s, p, q) == None;
    }
  }
}
