/** The pin classes of a complex block: pins of an equivalent port share a class, all others have one of their own. */
module PinClasses {
  datatype Port = Port(numPins: nat, equivalent: bool, input: bool)

  datatype PinType = Open | Receiver | Driver

  /** numPins is |pinlist|. */
  datatype Class = Class(pinlist: seq<int>, kind: PinType)

  /** A pin by its place: instance of the block, port, and bit of the port. */
  datatype Place = Place(instance: nat, port: nat, bit: nat)

  function PortPins(ports: seq<Port>): nat {
    if ports == [] then 0 else PortPins(ports[..|ports| - 1]) + ports[|ports| - 1].numPins
  }

  function ClassesOf(p: Port): nat { if p.equivalent then 1 else p.numPins }

  function PortClasses(ports: seq<Port>): nat {
    if ports == [] then 0 else PortClasses(ports[..|ports| - 1]) + ClassesOf(ports[|ports| - 1])
  }

  /** Two pins belong together when they are the same pin, or bits of one equivalent port of one instance. */
  predicate Together(ports: seq<Port>, x: Place, y: Place)
    requires x.port < |ports|
  {
    x == y || (x.instance == y.instance && x.port == y.port && ports[x.port].equivalent)
  }

  function Bits(i: nat, j: nat, n: nat): (r: seq<Place>)
    ensures |r| == n && forall k {:trigger r[k]} :: 0 <= k < n ==> r[k] == Place(i, j, k)
  {
    seq(n, k requires 0 <= k < n => Place(i, j, k))
  }

  /** The pins of the first `n` ports of an instance. */
  function PortPlaces(ports: seq<Port>, i: nat, n: nat): (r: seq<Place>)
    requires n <= |ports|
    ensures |r| == PortPins(ports[..n])
  {
    if n == 0 then []
    else
      assert ports[..n][..n - 1] == ports[..n - 1];
      PortPlaces(ports, i, n - 1) + Bits(i, n - 1, ports[n - 1].numPins)
  }

  /** All pins, in their order: instance by instance, port by port, bit by bit. */
  function Places(ports: seq<Port>, capacity: nat): (r: seq<Place>)
    ensures |r| == capacity * PortPins(ports)
  {
    if capacity == 0 then []
    else
      assert ports[..|ports|] == ports;
      NextMultiple(capacity, PortPins(ports));
      Places(ports, capacity - 1) + PortPlaces(ports, capacity - 1, |ports|)
  }

  lemma {:induction false} NextMultiple(n: nat, x: nat)
    requires n > 0
    ensures (n - 1) * x + x == n * x
  {
  }

  /** The classes and the table of pins say the same: a pin is on the list of its class, at one place,
    and on no other. */
  ghost predicate Inverse(pinClass: seq<int>, classes: seq<Class>, pins: nat, n: nat) {
    && pins <= |pinClass| && n <= |classes|
    && (forall p {:trigger pinClass[p]} :: 0 <= p < pins ==>
      0 <= pinClass[p] < n && p in classes[pinClass[p]].pinlist)
    && forall c, k {:trigger classes[c].pinlist[k]} :: 0 <= c < n && 0 <= k < |classes[c].pinlist| ==>
      0 <= classes[c].pinlist[k] < pins && pinClass[classes[c].pinlist[k]] == c
  }

  /** No list has a pin twice. */
  ghost predicate NoneTwice(classes: seq<Class>, n: nat)
    requires n <= |classes|
  {
    forall c {:trigger classes[c]} :: 0 <= c < n ==> Rising(classes[c].pinlist)
  }

  ghost predicate Rising(l: seq<int>) {
    forall j, k {:trigger l[j], l[k]} :: 0 <= j < k < |l| ==> l[j] < l[k]
  }

  /** Two pins are in one class exactly when they belong together. */
  ghost predicate Grouped(ports: seq<Port>, places: seq<Place>, pinClass: seq<int>, pins: nat) {
    && pins <= |places| && pins <= |pinClass|
    && (forall p {:trigger places[p]} :: 0 <= p < pins ==> places[p].port < |ports|)
    && forall p, q {:trigger pinClass[p], pinClass[q]} :: 0 <= p < pins && 0 <= q < pins ==>
      (pinClass[p] == pinClass[q] <==> Together(ports, places[p], places[q]))
  }

  /** Inputs receive, outputs drive. */
  ghost predicate Typed(ports: seq<Port>, places: seq<Place>, classes: seq<Class>, pinClass: seq<int>, pins: nat) {
    && pins <= |places| && pins <= |pinClass|
    && forall p {:trigger pinClass[p]} :: 0 <= p < pins ==>
      && places[p].port < |ports| && 0 <= pinClass[p] < |classes|
      && classes[pinClass[p]].kind == if ports[places[p].port].input then Receiver else Driver
  }

  ghost predicate ClassesSettled(ports: seq<Port>, places: seq<Place>, pinClass: seq<int>, classes: seq<Class>,
    n: nat) {
    && |places| <= |pinClass| && n <= |classes|
    && Inverse(pinClass, classes, |places|, n) && NoneTwice(classes, n)
    && Grouped(ports, places, pinClass, |places|) && Typed(ports, places, classes, pinClass, |places|)
  }

  /** All pins come from earlier instances, or earlier ports of this one. */
  ghost predicate Earlier(places: seq<Place>, i: nat, j: nat) {
    forall p {:trigger places[p]} :: 0 <= p < |places| ==>
      places[p].instance < i || (places[p].instance == i && places[p].port < j)
  }

  function Consecutive(from: nat, n: nat): (r: seq<int>)
    ensures |r| == n && forall k {:trigger r[k]} :: 0 <= k < n ==> r[k] == from + k
  {
    seq(n, k requires 0 <= k < n => from + k)
  }

  function KindOf(p: Port): PinType { if p.input then Receiver else Driver }

  /** What the loop over the bits of a port leaves: bit `k` is in class `n + k`, or `n` when they share one. */
  ghost predicate Entered(p: Port, before: seq<int>, after: seq<int>, classes: seq<Class>, classes': seq<Class>,
                          pins: nat, n: nat) {
    && |after| == |before| && |classes'| == |classes| && pins + p.numPins <= |before| && n + ClassesOf(p) <= |classes|
    && (forall q {:trigger after[q]} :: 0 <= q < |before| && !(pins <= q < pins + p.numPins) ==> after[q] == before[q])
    && (forall q {:trigger after[q]} :: pins <= q < pins + p.numPins ==>
      after[q] == n + if p.equivalent then 0 else q - pins)
    && (forall c {:trigger classes'[c]} :: 0 <= c < |classes| && !(n <= c < n + ClassesOf(p)) ==> classes'[c] == classes[c])
    && (forall c {:trigger classes'[c]} :: n <= c < n + ClassesOf(p) ==>
      && (p.numPins > 0 ==> classes'[c].kind == KindOf(p))
      && classes'[c].pinlist == if p.equivalent then Consecutive(pins, p.numPins) else [pins + c - n])
  }

  /** One port more. */
  lemma {:induction false} PortSettled(ports: seq<Port>, places: seq<Place>, before: seq<int>, after: seq<int>,
                                       classes: seq<Class>, classes': seq<Class>, n: nat, i: nat, j: nat)
    requires ClassesSettled(ports, places, before, classes, n) && Earlier(places, i, j) && j < |ports|
    requires Entered(ports[j], before, after, classes, classes', |places|, n)
    ensures ClassesSettled(ports, places + Bits(i, j, ports[j].numPins), after, classes', n + ClassesOf(ports[j]))
    ensures Earlier(places + Bits(i, j, ports[j].numPins), i, j + 1)
  {
    var more, p := Bits(i, j, ports[j].numPins), ports[j];
    InverseSettled(p, before, after, classes, classes', |places|, n);
    GroupedSettled(ports, places, before, after, classes, classes', n, i, j);
    assert forall c {:trigger classes'[c]} :: 0 <= c < n + ClassesOf(p) ==> (c < n ==> classes'[c] == classes[c]);
    forall q {:trigger after[q]} | 0 <= q < |places + more|
      ensures (places + more)[q].port < |ports| && 0 <= after[q] < |classes'|
      ensures classes'[after[q]].kind == if ports[(places + more)[q].port].input then Receiver else Driver
    {
      if q < |places| { assert after[q] == before[q]; }
    }
  }

  lemma {:induction false} InverseSettled(p: Port, before: seq<int>, after: seq<int>, classes: seq<Class>,
                                          classes': seq<Class>, pins: nat, n: nat)
    requires Inverse(before, classes, pins, n) && Entered(p, before, after, classes, classes', pins, n)
    ensures Inverse(after, classes', pins + p.numPins, n + ClassesOf(p))
  {
    forall q {:trigger after[q]} | 0 <= q < pins + p.numPins
      ensures 0 <= after[q] < n + ClassesOf(p) && q in classes'[after[q]].pinlist
    {
      if q < pins {
        assert after[q] == before[q] && classes'[after[q]] == classes[before[q]];
      } else if p.equivalent {
        assert Consecutive(pins, p.numPins)[q - pins] == q;
      }
    }
    forall c, k {:trigger classes'[c].pinlist[k]} | 0 <= c < n + ClassesOf(p) && 0 <= k < |classes'[c].pinlist|
      ensures 0 <= classes'[c].pinlist[k] < pins + p.numPins && after[classes'[c].pinlist[k]] == c
    {
      if c < n { assert classes'[c] == classes[c] && before[classes[c].pinlist[k]] == c; }
    }
  }

  lemma {:induction false} GroupedSettled(ports: seq<Port>, places: seq<Place>, before: seq<int>, after: seq<int>,
                                          classes: seq<Class>, classes': seq<Class>, n: nat, i: nat, j: nat)
    requires ClassesSettled(ports, places, before, classes, n) && Earlier(places, i, j) && j < |ports|
    requires Entered(ports[j], before, after, classes, classes', |places|, n)
    ensures |places| + ports[j].numPins <= |after|
    ensures Grouped(ports, places + Bits(i, j, ports[j].numPins), after, |places| + ports[j].numPins)
  {
    var all := places + Bits(i, j, ports[j].numPins);
    forall p, q {:trigger after[p], after[q]} | 0 <= p < |all| && 0 <= q < |all|
      ensures all[p].port < |ports|
      ensures after[p] == after[q] <==> Together(ports, all[p], all[q])
    {
      if p < |places| { assert after[p] == before[p] < n && all[p] == places[p]; }
      if q < |places| { assert after[q] == before[q] < n && all[q] == places[q]; }
    }
    forall p {:trigger all[p]} | 0 <= p < |all| ensures all[p].port < |ports| {
      if p < |places| { assert all[p] == places[p]; }
    }
  }

  /** The bits of a port whose pins are equivalent. */
  method SharedPort(p: Port, pinClass: array<int>, classes: array<Class>, pins: nat, n: nat)
    requires p.equivalent && pins + p.numPins <= pinClass.Length && n < classes.Length
    modifies pinClass, classes
    ensures Entered(p, old(pinClass[..]), pinClass[..], old(classes[..]), classes[..], pins, n)
  {
    classes[n] := Class(seq(p.numPins, _ => 0), classes[n].kind);
    for k := 0 to p.numPins
      invariant |classes[n].pinlist| == p.numPins && (k > 0 ==> classes[n].kind == KindOf(p))
      invariant forall l {:trigger classes[n].pinlist[l]} :: 0 <= l < k ==> classes[n].pinlist[l] == pins + l
      invariant forall c {:trigger classes[c]} :: 0 <= c < classes.Length && c != n ==> classes[c] == old(classes[c])
      invariant forall q {:trigger pinClass[q]} :: 0 <= q < pinClass.Length ==>
        pinClass[q] == if pins <= q < pins + k then n else old(pinClass[q])
    {
      classes[n] := Class(classes[n].pinlist[k := pins + k], KindOf(p));
      pinClass[pins + k] := n;
    }
    assert classes[n].pinlist == Consecutive(pins, p.numPins);
  }

  /** The bits of a port whose pins are not. */
  method SinglePort(p: Port, pinClass: array<int>, classes: array<Class>, pins: nat, n: nat)
    requires !p.equivalent && pins + p.numPins <= pinClass.Length && n + p.numPins <= classes.Length
    modifies pinClass, classes
    ensures Entered(p, old(pinClass[..]), pinClass[..], old(classes[..]), classes[..], pins, n)
  {
    for k := 0 to p.numPins
      invariant forall c {:trigger classes[c]} :: 0 <= c < classes.Length ==>
        classes[c] == if n <= c < n + k then Class([pins + c - n], KindOf(p)) else old(classes[c])
      invariant forall q {:trigger pinClass[q]} :: 0 <= q < pinClass.Length ==>
        pinClass[q] == if pins <= q < pins + k then n + q - pins else old(pinClass[q])
    {
      classes[n + k] := Class([pins + k], KindOf(p));
      pinClass[pins + k] := n + k;
    }
  }

  /** The loop that counts the classes. */
  method CountClasses(ports: seq<Port>, capacity: nat) returns (n: nat)
    ensures n == capacity * PortClasses(ports)
  {
    n := 0;
    for j := 0 to |ports|
      invariant n == capacity * PortClasses(ports[..j])
    {
      assert ports[..j + 1][..j] == ports[..j];
      Distributes(capacity, PortClasses(ports[..j]), ClassesOf(ports[j]));
      n := n + if ports[j].equivalent then capacity else capacity * ports[j].numPins;
    }
    assert ports[..|ports|] == ports;
  }

  lemma {:induction false} Distributes(x: nat, y: nat, z: nat)
    ensures x * (y + z) == x * y + x * z
  {
  }

  lemma {:induction false} PrefixFits(ports: seq<Port>, j: nat)
    requires j < |ports|
    ensures PortPins(ports[..j + 1]) == PortPins(ports[..j]) + ports[j].numPins <= PortPins(ports)
    ensures PortClasses(ports[..j + 1]) == PortClasses(ports[..j]) + ClassesOf(ports[j]) <= PortClasses(ports)
    decreases |ports|
  {
    var l := |ports| - 1;
    assert ports[..j + 1][..j] == ports[..j];
    if j < l {
      PrefixFits(ports[..l], j);
      assert ports[..l][..j + 1] == ports[..j + 1] && ports[..l][..j] == ports[..j];
    } else {
      assert ports[..j + 1] == ports;
    }
  }

  lemma {:induction false} NextPlaces(ports: seq<Port>, places: seq<Place>, i: nat, j: nat)
    requires j < |ports|
    ensures places + PortPlaces(ports, i, j) + Bits(i, j, ports[j].numPins) == places + PortPlaces(ports, i, j + 1)
  {
  }

  /** The ports of one instance. */
  method OneInstance(ports: seq<Port>, i: nat, pinClass: array<int>, classes: array<Class>, pins: nat, n: nat,
                     ghost places: seq<Place>)
    requires |places| == pins && pins + PortPins(ports) <= pinClass.Length && n + PortClasses(ports) <= classes.Length
    requires ClassesSettled(ports, places, pinClass[..], classes[..], n) && Earlier(places, i, 0)
    modifies pinClass, classes
    ensures ClassesSettled(ports, places + PortPlaces(ports, i, |ports|), pinClass[..], classes[..],
      n + PortClasses(ports))
    ensures Earlier(places + PortPlaces(ports, i, |ports|), i, |ports|)
    ensures forall q {:trigger pinClass[q]} :: pins + PortPins(ports) <= q < pinClass.Length ==>
      pinClass[q] == old(pinClass[q])
  {
    hide ClassesSettled, Earlier, Entered;
    var pinCount, numClass := pins, n;
    assert ports[..0] == [] && places + PortPlaces(ports, i, 0) == places;
    for j := 0 to |ports|
      invariant pinCount == pins + PortPins(ports[..j]) && numClass == n + PortClasses(ports[..j])
      invariant ClassesSettled(ports, places + PortPlaces(ports, i, j), pinClass[..], classes[..], numClass)
      invariant Earlier(places + PortPlaces(ports, i, j), i, j)
      invariant forall q {:trigger pinClass[q]} :: pins + PortPins(ports) <= q < pinClass.Length ==>
        pinClass[q] == old(pinClass[q])
    {
      PrefixFits(ports, j);
      ghost var before, classes0, placed := pinClass[..], classes[..], places + PortPlaces(ports, i, j);
      if ports[j].equivalent {
        SharedPort(ports[j], pinClass, classes, pinCount, numClass);
      } else {
        SinglePort(ports[j], pinClass, classes, pinCount, numClass);
      }
      PortSettled(ports, placed, before, pinClass[..], classes0, classes[..], numClass, i, j);
      LaterOpen(ports[j], before, pinClass[..], classes0, classes[..], pinCount, numClass);
      NextPlaces(ports, places, i, j);
      pinCount, numClass := pinCount + ports[j].numPins, numClass + ClassesOf(ports[j]);
    }
    assert ports[..|ports|] == ports;
  }

  lemma {:induction false} LaterOpen(p: Port, before: seq<int>, after: seq<int>, classes: seq<Class>,
                                     classes': seq<Class>, pins: nat, n: nat)
    requires Entered(p, before, after, classes, classes', pins, n)
    ensures |after| == |before|
      && forall q {:trigger after[q]} :: pins + p.numPins <= q < |before| ==> after[q] == before[q]
  {
  }

  lemma {:induction false} InstanceFits(capacity: nat, i: nat, x: nat)
    requires i < capacity
    ensures i * x + x == (i + 1) * x <= capacity * x
  {
    if i + 1 < capacity { InstanceFits(capacity - 1, i, x); NextMultiple(capacity, x); }
      else { NextMultiple(capacity, x); }
  }

  lemma {:induction false} RoomForAll(numPins: nat, capacity: nat, x: nat)
    requires numPins == capacity * x
    ensures numPins <= numPins * capacity
  {
    if capacity == 0 { assert numPins == 0; } else { Grows(numPins, capacity); }
  }

  lemma {:induction false} Grows(x: nat, y: nat)
    requires y >= 1
    ensures x <= x * y
  {
    assert x * y == x + x * (y - 1);
  }

  lemma {:induction false} NextInstance(ports: seq<Port>, places: seq<Place>, i: nat)
    requires places == Places(ports, i)
    ensures places + PortPlaces(ports, i, |ports|) == Places(ports, i + 1)
    ensures Earlier(places + PortPlaces(ports, i, |ports|), i, |ports|) ==> Earlier(Places(ports, i + 1), i + 1, 0)
  {
  }

  /** The pin-class half of SetupPinLocationsAndPinClasses. Both assertions at its end hold. */
  method SetupPinClasses(ports: seq<Port>, capacity: nat, numPins: nat)
    returns (pinClass: array<int>, classes: array<Class>)
    requires numPins == capacity * PortPins(ports)
    ensures fresh(pinClass) && fresh(classes) && classes.Length == capacity * PortClasses(ports)
    ensures |Places(ports, capacity)| == numPins
    ensures ClassesSettled(ports, Places(ports, capacity), pinClass[..], classes[..], classes.Length)
    ensures forall q {:trigger pinClass[q]} :: numPins <= q < pinClass.Length ==> pinClass[q] == -1
  {
    hide ClassesSettled, Earlier;
    var count := CountClasses(ports, capacity);
    classes := new Class[count](_ => Class([], Open));
    pinClass := new int[numPins * capacity](_ => -1);
    RoomForAll(numPins, capacity, PortPins(ports));
    var pinCount, numClass := 0, 0;
    NothingSettled(ports, pinClass[..], classes[..]);
    for i := 0 to capacity
      invariant pinCount == i * PortPins(ports) && numClass == i * PortClasses(ports)
      invariant |Places(ports, i)| == pinCount && Earlier(Places(ports, i), i, 0)
      invariant ClassesSettled(ports, Places(ports, i), pinClass[..], classes[..], numClass)
      invariant forall q {:trigger pinClass[q]} :: pinCount <= q < pinClass.Length ==> pinClass[q] == -1
    {
      InstanceFits(capacity, i, PortPins(ports));
      InstanceFits(capacity, i, PortClasses(ports));
      ghost var places := Places(ports, i);
      OneInstance(ports, i, pinClass, classes, pinCount, numClass, places);
      NextInstance(ports, places, i);
      pinCount, numClass := pinCount + PortPins(ports), numClass + PortClasses(ports);
    }
    assert numClass == classes.Length && pinCount == numPins;
  }

  lemma {:induction false} NothingSettled(ports: seq<Port>, pinClass: seq<int>, classes: seq<Class>)
    ensures Places(ports, 0) == [] && ClassesSettled(ports, Places(ports, 0), pinClass, classes, 0)
    ensures Earlier(Places(ports, 0), 0, 0)
  {
  }
}
