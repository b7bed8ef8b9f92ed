/** iterate_multipliers: the worklist that splits multipliers until each fits the hard block. Only port sizes are
    modelled; which pins the parts get, and how they are added up again, is not. */
module MultiplierSizes {
  /** Widths of the two factors. */
  datatype Size = Size(a: nat, b: nat)

  predicate Positive(s: Size) { s.a > 0 && s.b > 0 }

  function Area(s: Size): nat { s.a * s.b }

  function TotalArea(list: seq<Size>): (t: nat) {
    if list == [] then 0 else Area(list[0]) + TotalArea(list[1..])
  }

  /** The hard block holds the multiplier, in one of its two orientations. */
  predicate Fits(s: Size, block: Size) {
    (s.a <= block.a && s.b <= block.b) || (s.a <= block.b && s.b <= block.a)
  }

  /** What the list can still cost: every split replaces a multiplier by several of the same area. */
  function Work(list: seq<Size>): (w: int)
    requires forall k :: 0 <= k < |list| ==> Positive(list[k])
    ensures w >= |list|
  {
    if list == [] then 0
    else
      AreaPositive(list[0]);
      2 * Area(list[0]) - 1 + Work(list[1..])
  }

  lemma {:induction false} AreaPositive(s: Size)
    requires Positive(s)
    ensures Area(s) >= 1
  {
    assert s.a * s.b >= 1 * s.b;
  }

  lemma {:induction false} WorkAppend(x: seq<Size>, y: seq<Size>)
    requires forall k :: 0 <= k < |x| ==> Positive(x[k])
    requires forall k :: 0 <= k < |y| ==> Positive(y[k])
    ensures forall k :: 0 <= k < |x + y| ==> Positive((x + y)[k])
    ensures Work(x + y) == Work(x) + Work(y) && TotalArea(x + y) == TotalArea(x) + TotalArea(y)
  {
    if x == [] {
      assert x + y == y;
    } else {
      WorkAppend(x[1..], y);
      assert (x + y)[1..] == x[1..] + y;
    }
  }

  /** The four parts of split_multiplier, in the order in which the list then has them. */
  function Quarters(a0: nat, b0: nat, a1: nat, b1: nat): seq<Size> {
    [Size(a1, b0), Size(a0, b1), Size(a1, b1), Size(a0, b0)]
  }

  function Halves(x: Size, y: Size): seq<Size> { [x, y] }

  lemma {:induction false} ProductOfSums(a0: nat, a1: nat, b0: nat, b1: nat)
    ensures (a0 + a1) * (b0 + b1) == a0 * b0 + a0 * b1 + a1 * b0 + a1 * b1
  {
  }

  lemma {:induction false} QuartersCost(a0: nat, b0: nat, a1: nat, b1: nat)
    requires a0 > 0 && a1 > 0 && b0 > 0 && b1 > 0
    ensures var q := Quarters(a0, b0, a1, b1); var s := Size(a0 + a1, b0 + b1);
      TotalArea(q) == Area(s) && (forall k :: 0 <= k < |q| ==> Positive(q[k])) && Work(q) == 2 * Area(s) - 4
  {
    ProductOfSums(a0, a1, b0, b1);
    var q := Quarters(a0, b0, a1, b1);
    assert q[1..] == [q[1], q[2], q[3]] && q[1..][1..] == [q[2], q[3]] && q[1..][1..][1..] == [q[3]];
    assert q[1..][1..][1..][1..] == [];
  }

  lemma {:induction false} HalvesCost(x: Size, y: Size, s: Size)
    requires Positive(x) && Positive(y) && Area(x) + Area(y) == Area(s)
    ensures TotalArea(Halves(x, y)) == Area(s)
    ensures forall k :: 0 <= k < |Halves(x, y)| ==> Positive(Halves(x, y)[k])
    ensures Work(Halves(x, y)) == 2 * Area(s) - 2
  {
    assert Halves(x, y)[1..] == [y] && [y][1..] == [];
  }

  function Turned(block: Size): Size { Size(block.b, block.a) }

  /** The block as it is held against `s`: it is turned for every multiplier whose first factor is the narrower one,
      and stays turned. */
  function Held(s: Size, block: Size): Size {
    if s.a < s.b then Turned(block) else block
  }

  predicate Within(s: Size, block: Size) { s.a <= block.a && s.b <= block.b }

  /** The parts of a multiplier that is too wide for the block as held, in the order in which they come to the list. */
  function Parts(s: Size, block: Size): (r: seq<Size>)
    requires Positive(s) && Positive(block) && !Within(s, block)
    ensures 2 <= |r| <= 4 && (forall k :: 0 <= k < |r| ==> Positive(r[k]))
    ensures TotalArea(r) == Area(s) && Work(r) <= 2 * Area(s) - 2
  {
    if s.a > block.a && s.b > block.b then
      QuartersCost(s.a - block.a, s.b - block.b, block.a, block.b);
      Quarters(s.a - block.a, s.b - block.b, block.a, block.b)
    else if s.a > block.a then
      ProductOfSums(s.a - block.a, block.a, s.b, 0);
      HalvesCost(Size(block.a, s.b), Size(s.a - block.a, s.b), s);
      Halves(Size(block.a, s.b), Size(s.a - block.a, s.b))
    else
      ProductOfSums(s.a, 0, block.b, s.b - block.b);
      HalvesCost(Size(s.a, s.b - block.b), Size(s.a, block.b), s);
      Halves(Size(s.a, s.b - block.b), Size(s.a, block.b))
  }

  ghost predicate AllPositive(list: seq<Size>) { forall k :: 0 <= k < |list| ==> Positive(list[k]) }

  /** The list after its first multiplier was split. */
  lemma {:induction false} SplitCost(list: seq<Size>, block: Size)
    requires AllPositive(list) && list != [] && Positive(block) && !Within(list[0], block)
    ensures AllPositive(Parts(list[0], block) + list[1..])
    ensures Work(Parts(list[0], block) + list[1..]) < Work(list)
    ensures TotalArea(Parts(list[0], block) + list[1..]) == TotalArea(list)
    ensures |Parts(list[0], block) + list[1..]| > |list|
  {
    WorkAppend(Parts(list[0], block), list[1..]);
  }

  /** The multipliers that are left in the end. */
  ghost function Leaves(list: seq<Size>, block: Size): seq<Size>
    requires AllPositive(list) && Positive(block)
    decreases Work(list)
  {
    if list == [] then []
    else
      var held := Held(list[0], block);
      if Within(list[0], held) then [list[0]] + Leaves(list[1..], held)
      else
        SplitCost(list, held);
        Leaves(Parts(list[0], held) + list[1..], held)
  }

  lemma {:induction false} OneTurn(list: seq<Size>, block: Size, held: Size)
    requires AllPositive(list) && Positive(block) && list != [] && held == Held(list[0], block)
    ensures Positive(held) && AllPositive(list[1..]) && Work(list[1..]) < Work(list)
    ensures Within(list[0], held) ==> Leaves(list, block) == [list[0]] + Leaves(list[1..], held)
    ensures !Within(list[0], held) ==>
      var next := Parts(list[0], held) + list[1..];
      AllPositive(next) && Work(next) < Work(list) && Leaves(list, block) == Leaves(next, held)
  {
    AreaPositive(list[0]);
    if !Within(list[0], held) { SplitCost(list, held); }
  }

  lemma {:induction false} NothingListed(block: Size)
    requires Positive(block)
    ensures Leaves([], block) == []
  {
  }

  /** No area is lost or added, no multiplier is lost, and every one that is left fits the block. */
  lemma {:induction false} LeavesFit(list: seq<Size>, block: Size)
    requires AllPositive(list) && Positive(block)
    ensures TotalArea(Leaves(list, block)) == TotalArea(list) && |Leaves(list, block)| >= |list|
    ensures forall k {:trigger Leaves(list, block)[k]} :: 0 <= k < |Leaves(list, block)| ==>
      Positive(Leaves(list, block)[k]) && Fits(Leaves(list, block)[k], block)
    decreases Work(list)
  {
    if list != [] {
      var held := Held(list[0], block);
      if Within(list[0], held) {
        LeavesFit(list[1..], held);
        var r := Leaves(list[1..], held);
        assert Leaves(list, block) == [list[0]] + r && ([list[0]] + r)[1..] == r;
      } else {
        SplitCost(list, held);
        LeavesFit(Parts(list[0], held) + list[1..], held);
      }
    }
  }

  /** Every multiplier of the list fits the block the way it is held when its turn comes. */
  predicate InTurn(list: seq<Size>, block: Size)
    decreases |list|
  {
    list == [] || (Within(list[0], Held(list[0], block)) && InTurn(list[1..], Held(list[0], block)))
  }

  /** Nothing is split exactly when every multiplier fits the block the way it is held when its turn comes. */
  lemma {:induction false} WholeIffInTurn(list: seq<Size>, block: Size)
    requires AllPositive(list) && Positive(block)
    ensures Leaves(list, block) == list <==> InTurn(list, block)
    decreases |list|
  {
    if list != [] {
      var held := Held(list[0], block);
      if Within(list[0], held) {
        WholeIffInTurn(list[1..], held);
        assert list == [list[0]] + list[1..];
        assert ([list[0]] + Leaves(list[1..], held))[1..] == Leaves(list[1..], held);
      } else {
        SplitCost(list, held);
        LeavesFit(Parts(list[0], held) + list[1..], held);
      }
    }
  }

  /** Two equal multipliers that fit a 2 by 1 block: the block is turned for the first one and turned back for the
      second one, which is split. */
  lemma {:induction false} TurnedBack()
    ensures var list, block := [Size(1, 2), Size(1, 2)], Size(2, 1);
      Fits(list[0], block) && Fits(list[1], block) && !InTurn(list, block)
  {
    var list, block := [Size(1, 2), Size(1, 2)], Size(2, 1);
    assert list[1..] == [Size(1, 2)];
    assert Held(list[0], block) == Size(1, 2) && Held(list[1], Size(1, 2)) == block;
  }

  /** The worklist, its first multiplier first, and what was left whole. */
  class Multipliers {
    var list: seq<Size>
    var whole: seq<Size>

    constructor (list: seq<Size>)
      ensures this.list == list && whole == []
    {
      this.list, whole := list, [];
    }

    /** The splitting of one multiplier. */
    method Split(s: Size, block: Size)
      requires Positive(s) && Positive(block) && !Within(s, block)
      modifies this`list
      ensures list == Parts(s, block) + old(list)
    {
      if s.a > block.a && s.b > block.b {
        var a0, b0, a1, b1 := s.a - block.a, s.b - block.b, block.a, block.b;
        list := [Size(a0, b0)] + list;
        list := [Size(a1, b1)] + list;
        list := [Size(a0, b1)] + list;
        list := [Size(a1, b0)] + list;
      } else if s.a > block.a {
        list := [Size(s.a - block.a, s.b)] + list;
        list := [Size(block.a, s.b)] + list;
      } else {
        list := [Size(s.a, block.b)] + list;
        list := [Size(s.a, s.b - block.b)] + list;
      }
    }

    /** iterate_multipliers for a block of `first` by `second` bits. */
    method IterateMultipliers(first: nat, second: nat)
      requires AllPositive(list) && first > 0 && second > 0
      modifies this
      ensures list == []
      ensures whole == old(whole) + Leaves(old(list), Size(Max(first, second), Min(first, second)))
    {
      hide Leaves, Parts, Work, Within;
      var sizea, sizeb := first, second;
      if sizea < sizeb { sizea, sizeb := sizeb, sizea; }
      ghost var all := Leaves(list, Size(sizea, sizeb));
      while list != []
        invariant AllPositive(list) && sizea > 0 && sizeb > 0
        invariant whole + Leaves(list, Size(sizea, sizeb)) == old(whole) + all
        decreases Work(list)
      {
        var s := list[0];
        ghost var before := list;
        list := list[1..];
        ghost var block := Size(sizea, sizeb);
        if s.a < s.b { sizea, sizeb := sizeb, sizea; }
        OneTurn(before, block, Size(sizea, sizeb));
        if Within(s, Size(sizea, sizeb)) {
          whole := whole + [s];
        } else {
          Split(s, Size(sizea, sizeb));
        }
      }
      NothingListed(Size(sizea, sizeb));
    }
  }

  function Max(x: nat, y: nat): nat { if x < y then y else x }
  function Min(x: nat, y: nat): nat { if x < y then x else y }
}
