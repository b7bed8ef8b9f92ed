/** The k-way merge of create_mux_statements: sorted statement lists become one row per mux. */
module Merging {
  import opened Wrappers

  /** A pin and the number of its name in strcmp order. */
  datatype Sig = Sig(name: nat, pin: nat)

  /** One mux: its name and, for each list, the statement pin it takes; None is an implied signal. */
  datatype Row = Row(name: nat, picks: seq<Option<nat>>)

  ghost predicate Sorted(l: seq<Sig>) {
    forall i, j :: 0 <= i <= j < |l| ==> l[i].name <= l[j].name
  }

  function CountIn(l: seq<Sig>, x: nat): nat {
    if l == [] then 0 else (if l[0].name == x then 1 else 0) + CountIn(l[1..], x)
  }

  function TotalIn(lists: seq<seq<Sig>>, x: nat): nat {
    if lists == [] then 0 else CountIn(lists[0], x) + TotalIn(lists[1..], x)
  }

  function MostIn(lists: seq<seq<Sig>>, x: nat): nat {
    if lists == [] then 0
    else if CountIn(lists[0], x) >= MostIn(lists[1..], x) then CountIn(lists[0], x) else MostIn(lists[1..], x)
  }

  function Concat(lists: seq<seq<Sig>>): seq<Sig> {
    if lists == [] then [] else lists[0] + Concat(lists[1..])
  }

  // ----- sort_signal_list_alphabetically; qsort is only known to sort -----

  function Insert(s: Sig, l: seq<Sig>): seq<Sig> {
    if l == [] || s.name <= l[0].name then [s] + l else [l[0]] + Insert(s, l[1..])
  }

  function Sort(l: seq<Sig>): seq<Sig> {
    if l == [] then [] else Insert(l[0], Sort(l[1..]))
  }

  lemma {:induction false} InsertIsPermutation(s: Sig, l: seq<Sig>)
    ensures multiset(Insert(s, l)) == multiset([s] + l)
  {
    if l != [] && s.name > l[0].name {
      InsertIsPermutation(s, l[1..]);
      assert [l[0]] + l[1..] == l;
      assert multiset(Insert(s, l)) == multiset([l[0]]) + multiset(Insert(s, l[1..]));
    }
  }

  lemma {:induction false} InsertSorts(s: Sig, l: seq<Sig>)
    requires Sorted(l)
    ensures Sorted(Insert(s, l))
  {
    if l != [] && s.name > l[0].name {
      InsertSorts(s, l[1..]);
      InsertIsPermutation(s, l[1..]);
      var r := Insert(s, l[1..]);
      forall j | 0 <= j < |r| ensures l[0].name <= r[j].name {
        assert r[j] in multiset(r);
        assert r[j] in [s] + l[1..];
      }
    }
  }

  lemma {:induction false} SortSorts(l: seq<Sig>)
    ensures Sorted(Sort(l)) && multiset(Sort(l)) == multiset(l)
  {
    if l != [] {
      SortSorts(l[1..]);
      InsertSorts(l[0], Sort(l[1..]));
      InsertIsPermutation(l[0], Sort(l[1..]));
      assert l == [l[0]] + l[1..];
    }
  }

  lemma {:induction false} CountConcat(a: seq<Sig>, b: seq<Sig>, x: nat)
    ensures CountIn(a + b, x) == CountIn(a, x) + CountIn(b, x)
  {
    if a == [] { assert a + b == b; } else {
      CountConcat(a[1..], b, x);
      assert (a + b)[1..] == a[1..] + b;
    }
  }

  lemma {:induction false} CountInsert(s: Sig, l: seq<Sig>, x: nat)
    ensures CountIn(Insert(s, l), x) == CountIn([s] + l, x)
  {
    assert ([s] + l)[1..] == l;
    if l != [] && s.name > l[0].name {
      CountInsert(s, l[1..], x);
      assert ([s] + l[1..])[1..] == l[1..];
      assert ([l[0]] + Insert(s, l[1..]))[1..] == Insert(s, l[1..]);
    }
  }

  lemma {:induction false} CountSort(l: seq<Sig>, x: nat)
    ensures CountIn(Sort(l), x) == CountIn(l, x)
  {
    if l != [] {
      CountSort(l[1..], x);
      CountInsert(l[0], Sort(l[1..]), x);
      assert ([l[0]] + Sort(l[1..]))[1..] == Sort(l[1..]);
    }
  }

  lemma {:induction false} CountAll(lists: seq<seq<Sig>>, x: nat)
    ensures CountIn(Concat(lists), x) == TotalIn(lists, x)
  {
    if lists != [] {
      CountAll(lists[1..], x);
      CountConcat(lists[0], Concat(lists[1..]), x);
    }
  }

  // ----- the merge as a function -----

  function Total(lists: seq<seq<Sig>>): nat {
    if lists == [] then 0 else |lists[0]| + Total(lists[1..])
  }

  /** Has list `l` its next statement for `m`? */
  predicate Heads(l: seq<Sig>, m: nat) {
    l != [] && l[0].name == m
  }

  function Pick(l: seq<Sig>, m: nat): Option<nat> {
    if Heads(l, m) then Some(l[0].pin) else None
  }

  function Rest(l: seq<Sig>, m: nat): seq<Sig> {
    if Heads(l, m) then l[1..] else l
  }

  function Picks(lists: seq<seq<Sig>>, m: nat): (r: seq<Option<nat>>)
    ensures |r| == |lists|
    ensures forall j {:trigger r[j]} :: 0 <= j < |lists| ==> r[j] == Pick(lists[j], m)
  {
    seq(|lists|, (j: nat) requires j < |lists| => Pick(lists[j], m))
  }

  function Rests(lists: seq<seq<Sig>>, m: nat): (r: seq<seq<Sig>>)
    ensures |r| == |lists|
    ensures forall j {:trigger r[j]} :: 0 <= j < |lists| ==> r[j] == Rest(lists[j], m)
  {
    if lists == [] then [] else [Rest(lists[0], m)] + Rests(lists[1..], m)
  }

  /** How many lists have a statement for `m` at the front. */
  function Skip(lists: seq<seq<Sig>>, m: nat): nat {
    if lists == [] then 0 else (if Heads(lists[0], m) then 1 else 0) + Skip(lists[1..], m)
  }

  /** The least name at the front of any list. */
  function Least(lists: seq<seq<Sig>>): Option<nat> {
    if lists == [] then None
    else
      var m := Least(lists[1..]);
      if lists[0] == [] then m
      else if m.None? || lists[0][0].name <= m.value then Some(lists[0][0].name) else m
  }

  lemma {:induction false} LeastIs(lists: seq<seq<Sig>>)
    ensures Least(lists).None? <==> forall j :: 0 <= j < |lists| ==> lists[j] == []
    ensures Least(lists).Some? ==> (exists j :: 0 <= j < |lists| && Heads(lists[j], Least(lists).value))
    ensures forall j :: 0 <= j < |lists| && lists[j] != [] ==>
      Least(lists).Some? && Least(lists).value <= lists[j][0].name
  {
    if lists != [] {
      LeastIs(lists[1..]);
      assert forall j :: 1 <= j < |lists| ==> lists[j] == lists[1..][j - 1];
      var m := Least(lists[1..]);
      if m.Some? {
        var j :| 0 <= j < |lists[1..]| && Heads(lists[1..][j], m.value);
        assert Heads(lists[j + 1], m.value);
      }
      assert lists[0] != [] ==> Heads(lists[0], lists[0][0].name);
    }
  }

  lemma {:induction false} RestsShorter(lists: seq<seq<Sig>>, m: nat)
    ensures Total(Rests(lists, m)) + Skip(lists, m) == Total(lists)
    ensures Skip(lists, m) > 0 <==> exists j :: 0 <= j < |lists| && Heads(lists[j], m)
  {
    if lists != [] {
      RestsShorter(lists[1..], m);
      assert forall j :: 1 <= j < |lists| ==> lists[j] == lists[1..][j - 1];
      if j :| 0 <= j < |lists| && Heads(lists[j], m) {
        assert j > 0 ==> Heads(lists[1..][j - 1], m);
      }
      if j :| 0 <= j < |lists[1..]| && Heads(lists[1..][j], m) {
        assert Heads(lists[j + 1], m);
      }
      assert Rests(lists, m)[1..] == Rests(lists[1..], m);
    }
  }

  /** The rows: the least front name first, taking one statement of it from every list that has one there. */
  function Rows(lists: seq<seq<Sig>>): (r: seq<Row>)
    decreases Total(lists)
  {
    var m := Least(lists);
    if m.None? then []
    else
      LeastIs(lists);
      RestsShorter(lists, m.value);
      [Row(m.value, Picks(lists, m.value))] + Rows(Rests(lists, m.value))
  }

  // ----- why the merge never sticks -----

  lemma {:induction false} CountPositive(l: seq<Sig>, x: nat)
    ensures CountIn(l, x) > 0 <==> exists i :: 0 <= i < |l| && l[i].name == x
    ensures CountIn(l, x) <= |l|
  {
    if l != [] {
      CountPositive(l[1..], x);
      if i :| 0 <= i < |l| && l[i].name == x { assert i > 0 ==> l[1..][i - 1].name == x; }
      if i :| 0 <= i < |l[1..]| && l[1..][i].name == x { assert l[i + 1].name == x; }
    }
  }

  lemma {:induction false} TotalPositive(lists: seq<seq<Sig>>, x: nat)
    ensures TotalIn(lists, x) > 0 <==> exists j :: 0 <= j < |lists| && CountIn(lists[j], x) > 0
  {
    if lists != [] {
      TotalPositive(lists[1..], x);
      assert forall j :: 1 <= j < |lists| ==> lists[j] == lists[1..][j - 1];
      if j :| 0 <= j < |lists| && CountIn(lists[j], x) > 0 { assert j > 0 ==> CountIn(lists[1..][j - 1], x) > 0; }
      if j :| 0 <= j < |lists[1..]| && CountIn(lists[1..][j], x) > 0 { assert CountIn(lists[j + 1], x) > 0; }
    }
  }

  ghost predicate AllSorted(lists: seq<seq<Sig>>) {
    forall j :: 0 <= j < |lists| ==> Sorted(lists[j])
  }

  /** `rest` is what the lists still hold, in sorted order. */
  ghost predicate Combines(rest: seq<Sig>, lists: seq<seq<Sig>>) {
    Sorted(rest) && AllSorted(lists) && forall x {:trigger CountIn(rest, x)} :: CountIn(rest, x) == TotalIn(lists, x)
  }

  /** The first remaining name is at the front of some list, and no front is less. */
  lemma {:induction false} FrontIsLeast(rest: seq<Sig>, lists: seq<seq<Sig>>)
    requires Combines(rest, lists) && rest != []
    ensures Least(lists) == Some(rest[0].name) && Skip(lists, rest[0].name) >= 1
  {
    var m := rest[0].name;
    LeastIs(lists);
    assert CountIn(rest, m) > 0;
    TotalPositive(lists, m);
    var j :| 0 <= j < |lists| && CountIn(lists[j], m) > 0;
    CountPositive(lists[j], m);
    var y := Least(lists).value;
    var k :| 0 <= k < |lists| && Heads(lists[k], y);
    assert CountIn(lists[k], y) > 0;
    TotalPositive(lists, y);
    assert CountIn(rest, y) > 0;
    CountPositive(rest, y);
    RestsShorter(lists, m);
  }

  lemma {:induction false} RestCount(lists: seq<seq<Sig>>, m: nat, x: nat)
    ensures TotalIn(Rests(lists, m), x) == TotalIn(lists, x) - (if x == m then Skip(lists, m) else 0)
    ensures Skip(lists, m) <= TotalIn(lists, m)
  {
    if lists != [] {
      RestCount(lists[1..], m, x);
      assert Rests(lists, m)[1..] == Rests(lists[1..], m);
    }
  }

  /** The next `k` entries all carry the front name. */
  lemma {:induction false} SkipEntries(rest: seq<Sig>, m: nat, k: nat, x: nat)
    requires Sorted(rest) && CountIn(rest, m) >= k && forall i :: 0 <= i < |rest| ==> m <= rest[i].name
    ensures k <= |rest| && (forall i :: 0 <= i < k ==> rest[i].name == m)
    ensures CountIn(rest[k..], x) == CountIn(rest, x) - (if x == m then k else 0)
  {
    CountPositive(rest, m);
    if k > 0 {
      var i :| 0 <= i < |rest| && rest[i].name == m;
      assert rest[0].name == m;
      SkipEntries(rest[1..], m, k - 1, x);
      assert rest[1..][k - 1..] == rest[k..];
      assert forall i :: 1 <= i < k ==> rest[i] == rest[1..][i - 1];
    } else {
      assert rest[0..] == rest;
    }
  }

  lemma {:induction false} RestsSorted(lists: seq<seq<Sig>>, m: nat)
    requires AllSorted(lists)
    ensures AllSorted(Rests(lists, m))
  {
  }

  /** Skipping as many entries as there were matches leaves exactly what the lists still hold. */
  lemma {:induction false} SkipAdvances(rest: seq<Sig>, lists: seq<seq<Sig>>)
    requires Combines(rest, lists) && rest != []
    ensures var m := rest[0].name; var k := Skip(lists, m);
      && 1 <= k <= |rest| && (forall i :: 0 <= i < k ==> rest[i].name == m)
      && Combines(rest[k..], Rests(lists, m)) && Rows(lists) == [Row(m, Picks(lists, m))] + Rows(Rests(lists, m))
  {
    var m := rest[0].name;
    var k := Skip(lists, m);
    FrontIsLeast(rest, lists);
    RestCount(lists, m, m);
    RestsSorted(lists, m);
    assert CountIn(rest, m) == TotalIn(lists, m);
    SkipEntries(rest, m, k, m);
    forall x {:trigger CountIn(rest[k..], x)} ensures CountIn(rest[k..], x) == TotalIn(Rests(lists, m), x) {
      SkipEntries(rest, m, k, x);
      RestCount(lists, m, x);
      assert CountIn(rest, x) == TotalIn(lists, x);
    }
  }

  // ----- what the rows hold -----

  function PinsOf(l: seq<Sig>): (r: seq<nat>)
    ensures |r| == |l|
  {
    if l == [] then [] else [l[0].pin] + PinsOf(l[1..])
  }

  /** The pins the rows take from list `j`, in row order. */
  function Taken(rows: seq<Row>, j: nat): seq<nat> {
    if rows == [] then []
    else (if j < |rows[0].picks| && rows[0].picks[j].Some? then [rows[0].picks[j].value] else []) + Taken(rows[1..], j)
  }

  /** Every statement pin is consumed exactly once, in the order of its list. */
  lemma {:induction false} PinsConsumed(lists: seq<seq<Sig>>, j: nat)
    requires j < |lists|
    ensures Taken(Rows(lists), j) == PinsOf(lists[j])
    decreases Total(lists)
  {
    LeastIs(lists);
    var m := Least(lists);
    if m.Some? {
      RestsShorter(lists, m.value);
      PinsConsumed(Rests(lists, m.value), j);
      assert Rows(lists)[1..] == Rows(Rests(lists, m.value));
    }
  }

  function CountRows(rows: seq<Row>, x: nat): nat {
    if rows == [] then 0 else (if rows[0].name == x then 1 else 0) + CountRows(rows[1..], x)
  }

  lemma {:induction false} MostOfRests(lists: seq<seq<Sig>>, m: nat, x: nat)
    requires x != m
    ensures MostIn(Rests(lists, m), x) == MostIn(lists, x)
  {
    if lists != [] {
      MostOfRests(lists[1..], m, x);
      assert Rests(lists, m)[1..] == Rests(lists[1..], m);
    }
  }

  /** Lists that hold the least name hold it at the front. */
  lemma {:induction false} LeastAtFront(l: seq<Sig>, m: nat)
    requires Sorted(l) && (l != [] ==> m <= l[0].name)
    ensures CountIn(l, m) > 0 <==> Heads(l, m)
  {
    CountPositive(l, m);
  }

  lemma {:induction false} MostOfLeast(lists: seq<seq<Sig>>, m: nat)
    requires AllSorted(lists) && forall j :: 0 <= j < |lists| && lists[j] != [] ==> m <= lists[j][0].name
    ensures Skip(lists, m) > 0 <==> MostIn(lists, m) > 0
    ensures MostIn(lists, m) > 0 ==> MostIn(Rests(lists, m), m) == MostIn(lists, m) - 1
    ensures MostIn(lists, m) == 0 ==> MostIn(Rests(lists, m), m) == 0
  {
    if lists != [] {
      assert forall j :: 1 <= j < |lists| ==> lists[j] == lists[1..][j - 1];
      MostOfLeast(lists[1..], m);
      LeastAtFront(lists[0], m);
      assert Rests(lists, m)[1..] == Rests(lists[1..], m);
    }
  }

  /** A name gets as many muxes as the list that assigns it most often has statements for it. */
  lemma {:induction false} RowCount(lists: seq<seq<Sig>>, x: nat)
    requires AllSorted(lists)
    ensures CountRows(Rows(lists), x) == MostIn(lists, x)
    decreases Total(lists)
  {
    LeastIs(lists);
    var m := Least(lists);
    if m.Some? {
      RestsShorter(lists, m.value);
      RestsSorted(lists, m.value);
      RowCount(Rests(lists, m.value), x);
      assert Rows(lists)[1..] == Rows(Rests(lists, m.value));
      if x == m.value { MostOfLeast(lists, x); } else { MostOfRests(lists, m.value, x); }
    } else {
      NoneLeft(lists, x);
    }
  }

  lemma {:induction false} NoneLeft(lists: seq<seq<Sig>>, x: nat)
    requires forall j :: 0 <= j < |lists| ==> lists[j] == []
    ensures MostIn(lists, x) == 0
  {
    if lists != [] { NoneLeft(lists[1..], x); }
  }

  function Find(l: seq<Sig>, x: nat): Option<nat> {
    if l == [] then None else if l[0].name == x then Some(l[0].pin) else Find(l[1..], x)
  }

  lemma {:induction false} FindRest(l: seq<Sig>, m: nat, x: nat)
    requires Sorted(l) && (l != [] ==> m <= l[0].name)
    ensures x == m ==> Find(l, x) == Pick(l, m)
    ensures x != m ==> Find(Rest(l, m), x) == Find(l, x)
  {
    if l != [] && l[0].name != m && x == m { FindNone(l, x); }
  }

  lemma {:induction false} FindNone(l: seq<Sig>, x: nat)
    requires forall i :: 0 <= i < |l| ==> l[i].name != x
    ensures Find(l, x) == None && CountIn(l, x) == 0
  {
    if l != [] { FindNone(l[1..], x); }
  }

  lemma {:induction false} PicksFind(lists: seq<seq<Sig>>, m: nat)
    requires AllSorted(lists) && forall j :: 0 <= j < |lists| && lists[j] != [] ==> m <= lists[j][0].name
    ensures forall j :: 0 <= j < |lists| ==> Picks(lists, m)[j] == Find(lists[j], m)
  {
    forall j | 0 <= j < |lists| ensures Picks(lists, m)[j] == Find(lists[j], m) { FindRest(lists[j], m, m); }
  }

  lemma {:induction false} RestsFind(lists: seq<seq<Sig>>, m: nat, x: nat)
    requires AllSorted(lists) && m != x && forall j :: 0 <= j < |lists| && lists[j] != [] ==> m <= lists[j][0].name
    ensures forall j :: 0 <= j < |lists| ==> Find(Rests(lists, m)[j], x) == Find(lists[j], x)
  {
    forall j | 0 <= j < |lists| ensures Find(Rests(lists, m)[j], x) == Find(lists[j], x) { FindRest(lists[j], m, x); }
  }

  /** The least name is gone from what is left. */
  lemma {:induction false} LeastGone(lists: seq<seq<Sig>>, m: nat, r: nat)
    requires AllSorted(lists) && MostIn(lists, m) <= 1 && Least(lists) == Some(m) && r < |Rows(Rests(lists, m))|
    ensures Rows(Rests(lists, m))[r].name != m
  {
    LeastIs(lists);
    RestsSorted(lists, m);
    MostOfLeast(lists, m);
    RowCount(Rests(lists, m), m);
    RowNamed(Rows(Rests(lists, m)), r);
  }

  /** A row takes from each list the first pin of its name, if names do not repeat within a list. */
  lemma {:induction false} RowPicks(lists: seq<seq<Sig>>, x: nat, r: nat)
    requires AllSorted(lists) && MostIn(lists, x) <= 1 && r < |Rows(lists)| && Rows(lists)[r].name == x
    ensures |Rows(lists)[r].picks| == |lists|
    ensures forall j :: 0 <= j < |lists| ==> Rows(lists)[r].picks[j] == Find(lists[j], x)
    decreases Total(lists)
  {
    hide AllSorted;
    LeastIs(lists);
    var m := Least(lists).value;
    RestsShorter(lists, m);
    if r == 0 {
      PicksFind(lists, m);
    } else {
      assert Rows(lists)[r] == Rows(Rests(lists, m))[r - 1];
      if x == m {
        LeastGone(lists, m, r - 1);
      } else {
        RestsSorted(lists, m);
        MostOfRests(lists, m, x);
        RestsFind(lists, m, x);
        RowPicks(Rests(lists, m), x, r - 1);
      }
    }
  }

  lemma {:induction false} RowNamed(rows: seq<Row>, r: nat)
    requires r < |rows|
    ensures CountRows(rows, rows[r].name) > 0
  {
    if r > 0 { RowNamed(rows[1..], r - 1); }
  }

  /** The rows come in name order. */
  lemma {:induction false} RowsOrdered(lists: seq<seq<Sig>>, r: nat)
    requires AllSorted(lists) && r < |Rows(lists)|
    ensures Least(lists).Some? && Least(lists).value <= Rows(lists)[r].name
    ensures r > 0 ==> Rows(lists)[r - 1].name <= Rows(lists)[r].name
    decreases Total(lists), r
  {
    LeastIs(lists);
    var m := Least(lists).value;
    RestsShorter(lists, m);
    RestsSorted(lists, m);
    if r > 0 {
      RowsOrdered(Rests(lists, m), r - 1);
      LeastIs(Rests(lists, m));
      RestsAbove(lists, m);
    }
  }

  lemma {:induction false} RestsAbove(lists: seq<seq<Sig>>, m: nat)
    requires AllSorted(lists) && forall j :: 0 <= j < |lists| && lists[j] != [] ==> m <= lists[j][0].name
    ensures forall j :: 0 <= j < |lists| && Rests(lists, m)[j] != [] ==> m <= Rests(lists, m)[j][0].name
  {
  }
}
