/** What a netlist means: the value every cell computes, and the runs of a clocked netlist. */
module Semantics {
  import opened Wrappers
  import opened Bits

  datatype Kind =
    // cells that reach the BLIF file
    | LogicalAnd | LogicalOr | LogicalNand | LogicalNor | LogicalXor | LogicalXnor | LogicalNot
    | AdderFunc | CarryFunc | Mux2 | FlipFlop
    // word-level operators; a bitwise operator with one port reduces its operand
    | BitwiseAnd | BitwiseOr | BitwiseNand | BitwiseNor | BitwiseXor | BitwiseXnor | BitwiseNot
    // Gt and Lt are also the names of the three-input comparison cells
    | Add | Minus | Multiply | Gt | Lt | Gte | Lte | LogicalEqual | NotEqual | MultiPortMux
    // memories, and the nodes nothing is said about
    | SpMemory | DpMemory | InputNode | OutputNode | GndNode | VccNode | PadNode

  datatype Role = Plain | Addr | Data | We | Clk | Addr1 | Addr2 | Data1 | Data2 | We1 | We2

  /** A port: the mapping name its pins carry, and its width. */
  datatype Port = Port(role: Role, width: nat)

  /** A node with the nets its pins are attached to; None is an empty slot or a pin without a net. */
  datatype Cell = Cell(kind: Kind, ins: seq<Option<nat>>, outs: seq<Option<nat>>,
                       inPorts: seq<Port>, outPorts: seq<nat>)

  datatype NL = NL(cells: seq<Cell>, nets: nat, zero: nat, one: nat, pad: nat)

  type Valuation = nat -> bool

  function Val(s: Option<nat>, v: Valuation): bool {
    s.Some? && v(s.value)
  }

  function Vals(s: seq<Option<nat>>, v: Valuation): (r: seq<bool>)
    ensures |r| == |s|
    ensures forall i :: 0 <= i < |s| ==> r[i] == Val(s[i], v)
  {
    seq(|s|, (i: nat) requires i < |s| => Val(s[i], v))
  }

  function Slice<T>(s: seq<T>, lo: nat, len: nat): seq<T> {
    if lo + len <= |s| then s[lo..lo + len] else []
  }

  function Offset(ports: seq<Port>, k: nat): nat {
    if k == 0 || k > |ports| then 0 else Offset(ports, k - 1) + ports[k - 1].width
  }

  /** The part of a pin list that belongs to port `k`. */
  function PortOf<T>(ports: seq<Port>, s: seq<T>, k: nat): seq<T> {
    if k < |ports| then Slice(s, Offset(ports, k), ports[k].width) else []
  }

  predicate All(x: seq<bool>) { forall i :: 0 <= i < |x| ==> x[i] }

  predicate Any(x: seq<bool>) { exists i :: 0 <= i < |x| && x[i] }

  predicate AndOr(sel: seq<bool>, data: seq<bool>) {
    exists i :: 0 <= i < |sel| && i < |data| && sel[i] && data[i]
  }

  function Parity(x: seq<bool>): bool {
    if x == [] then false else x[0] != Parity(x[1..])
  }

  predicate IsLogical(kind: Kind) {
    kind.LogicalAnd? || kind.LogicalOr? || kind.LogicalNand? || kind.LogicalNor? || kind.LogicalXor?
      || kind.LogicalXnor?
  }

  predicate IsBitwise(kind: Kind) {
    kind.BitwiseAnd? || kind.BitwiseOr? || kind.BitwiseNand? || kind.BitwiseNor? || kind.BitwiseXor?
      || kind.BitwiseXnor?
  }

  /** The gate a bitwise operator is made of. */
  function GateKind(kind: Kind): (r: Kind)
    requires IsBitwise(kind)
    ensures IsLogical(r)
  {
    match kind
    case BitwiseAnd => LogicalAnd
    case BitwiseOr => LogicalOr
    case BitwiseNand => LogicalNand
    case BitwiseNor => LogicalNor
    case BitwiseXor => LogicalXor
    case _ => LogicalXnor
  }

  function BitOp(kind: Kind, a: bool, b: bool): bool
    requires IsLogical(kind)
  {
    match kind
    case LogicalAnd => a && b
    case LogicalOr => a || b
    case LogicalNand => !(a && b)
    case LogicalNor => !(a || b)
    case LogicalXor => a != b
    case _ => a == b
  }

  /** A gate over all its input pins. */
  function Gate(kind: Kind, x: seq<bool>): bool
    requires IsLogical(kind)
  {
    match kind
    case LogicalAnd => All(x)
    case LogicalOr => Any(x)
    case LogicalNand => !All(x)
    case LogicalNor => !Any(x)
    case LogicalXor => Parity(x)
    case _ => !Parity(x)
  }

  predicate Compare(kind: Kind, a: nat, b: nat)
    requires kind in {Gt, Lt, Gte, Lte, LogicalEqual, NotEqual}
  {
    match kind
    case Gt => a > b
    case Lt => a < b
    case Gte => a >= b
    case Lte => a <= b
    case LogicalEqual => a == b
    case _ => a != b
  }

  /** The values a combinational cell with `w` output pins puts on them. */
  function Outputs(kind: Kind, ports: seq<Port>, x: seq<bool>, w: nat): (r: seq<bool>) {
    var a := PortOf(ports, x, 0);
    var b := PortOf(ports, x, 1);
    match kind
    case LogicalNot => [!Any(x)]
    case AdderFunc => [Parity(x)]
    case CarryFunc => [|x| == 3 && ((x[0] && x[1]) || (x[0] && x[2]) || (x[1] && x[2]))]
    case Mux2 => [AndOr(a, b)]
    case MultiPortMux => seq(w, (j: nat) => AndOr(a, PortOf(ports, x, j + 1)))
    case Add => ToBits(ToNat(a) + ToNat(b), w)
    case Minus =>
      if |ports| == 1 then ToBits(0 - ToNat(a), w)
      else ToBits(ToNat(a) - ToNat(b), w)
    case Multiply => ToBits(ToNat(a) * ToNat(b), w)
    case Gt => if |ports| == 3 then [|x| == 3 && x[0] && !x[1] && !x[2]] else [Compare(Gt, ToNat(a), ToNat(b))]
    case Lt => if |ports| == 3 then [|x| == 3 && !x[0] && x[1] && !x[2]] else [Compare(Lt, ToNat(a), ToNat(b))]
    case Gte => [Compare(Gte, ToNat(a), ToNat(b))]
    case Lte => [Compare(Lte, ToNat(a), ToNat(b))]
    case LogicalEqual => [Compare(LogicalEqual, ToNat(a), ToNat(b))]
    case NotEqual => [Compare(NotEqual, ToNat(a), ToNat(b))]
    case BitwiseNot => seq(w, (i: nat) => i < |x| && !x[i])
    case _ => if IsLogical(kind) then GateOutputs(kind, ports, x)
      else if IsBitwise(kind) then BitwiseOutputs(kind, ports, x, w) else []
  }

  /** A two-port gate takes each of its operands as a truth value; with one port it is a gate over all its pins. */
  function GateOutputs(kind: Kind, ports: seq<Port>, x: seq<bool>): seq<bool>
    requires IsLogical(kind)
  {
    if |ports| == 2 then [BitOp(kind, Any(PortOf(ports, x, 0)), Any(PortOf(ports, x, 1)))] else [Gate(kind, x)]
  }

  /** A bitwise operator works bit by bit; with one port it reduces its whole operand. */
  function BitwiseOutputs(kind: Kind, ports: seq<Port>, x: seq<bool>, w: nat): seq<bool>
    requires IsBitwise(kind)
  {
    if |ports| == 2 then
      var a := Resize(PortOf(ports, x, 0), w);
      var b := Resize(PortOf(ports, x, 1), w);
      seq(w, (i: nat) requires i < w => BitOp(GateKind(kind), a[i], b[i]))
    else
      [Gate(GateKind(kind), x)]
  }

  predicate Combinational(kind: Kind) {
    !(kind in {FlipFlop, SpMemory, DpMemory})
  }

  /** The nets `v` puts on the outputs of `c` are the ones `c` computes. */
  ghost predicate Holds(c: Cell, v: Valuation) {
    Combinational(c.kind) ==>
      var o := Outputs(c.kind, c.inPorts, Vals(c.ins, v), |c.outs|);
      forall i :: 0 <= i < |c.outs| && i < |o| && c.outs[i].Some? ==> v(c.outs[i].value) == o[i]
  }

  ghost predicate Constants(zero: nat, one: nat, v: Valuation) {
    !v(zero) && v(one)
  }

  ghost predicate AllHold(cells: seq<Cell>, v: Valuation) {
    forall k :: 0 <= k < |cells| ==> Holds(cells[k], v)
  }

  ghost predicate Consistent(nl: NL, v: Valuation) {
    Constants(nl.zero, nl.one, v) && AllHold(nl.cells, v)
  }

  ghost predicate AgreeBelow(nets: nat, v: Valuation, w: Valuation) {
    forall e :: 0 <= e < nets ==> v(e) == w(e)
  }

  predicate SlotsBelow(s: seq<Option<nat>>, nets: nat) {
    forall i :: 0 <= i < |s| && s[i].Some? ==> s[i].value < nets
  }

  predicate InRange(c: Cell, nets: nat) {
    SlotsBelow(c.ins, nets) && SlotsBelow(c.outs, nets)
  }

  predicate WellFormed(nl: NL) {
    && nl.zero < nl.nets && nl.one < nl.nets && nl.pad < nl.nets
    && forall k :: 0 <= k < |nl.cells| ==> InRange(nl.cells[k], nl.nets)
  }

  // ----- clocked behaviour -----

  /** The contents of a memory: word address and bit position. */
  type Mem = (nat, nat) -> bool

  ghost predicate SameMem(m: Mem, m': Mem) {
    forall x: nat, j: nat :: m(x, j) == m'(x, j)
  }

  predicate Edge(clk: Option<nat>, v: Valuation, v': Valuation) {
    Val(clk, v') && !Val(clk, v)
  }

  /** The slots of the first port with the given mapping name. */
  function RoleSlots(c: Cell, role: Role): seq<Option<nat>> {
    PortOf(c.inPorts, c.ins, FindPort(c.inPorts, role))
  }

  function FindPort(ports: seq<Port>, role: Role): (k: nat)
    ensures k <= |ports|
    ensures k < |ports| ==> ports[k].role == role
    ensures forall i :: 0 <= i < k ==> ports[i].role != role
  {
    if ports == [] then 0 else if ports[0].role == role then 0 else 1 + FindPort(ports[1..], role)
  }

  function First(s: seq<Option<nat>>): Option<nat> {
    if s == [] then None else s[0]
  }
}
