/** Entity tables of the XML reader: the first-match reference graph and the check that keeps it free of cycles. */
module EntityTables {

  /** A name with its closing semicolon, and the replacement text. */
  datatype Entity = Entity(name: string, value: string)

  /** `p` stands at position `i` of `s`; strncmp against a whole name. */
  predicate PrefixAt(s: string, i: nat, p: string) {
    i + |p| <= |s| && s[i..i + |p|] == p
  }

  /** The entity whose name follows the ampersand at `i`: the first that fits, or |table|. */
  function FirstFrom(table: seq<Entity>, s: string, i: nat, k: nat): (j: nat)
    requires k <= |table|
    ensures k <= j <= |table| && (j < |table| ==> PrefixAt(s, i + 1, table[j].name))
    ensures forall l {:trigger table[l]} :: k <= l < j ==> !PrefixAt(s, i + 1, table[l].name)
    decreases |table| - k
  {
    if k == |table| || PrefixAt(s, i + 1, table[k].name) then k else FirstFrom(table, s, i, k + 1)
  }

  function FirstMatch(table: seq<Entity>, s: string, i: nat): (j: nat)
    ensures j <= |table|
  {
    FirstFrom(table, s, i, 0)
  }

  /** The search loop of both the check and the decoder. */
  method FindEntity(table: seq<Entity>, s: string, i: nat) returns (b: nat)
    ensures b == FirstMatch(table, s, i)
  {
    b := 0;
    while b < |table| && !PrefixAt(s, i + 1, table[b].name)
      invariant b <= |table| && FirstFrom(table, s, i, b) == FirstMatch(table, s, i)
    {
      b := b + 1;
    }
  }

  /** What is first stays first when the table grows. */
  lemma {:induction false} FirstAppend(table: seq<Entity>, e: Entity, s: string, i: nat)
    ensures FirstMatch(table, s, i) < |table| ==> FirstMatch(table + [e], s, i) == FirstMatch(table, s, i)
    ensures FirstMatch(table, s, i) == |table| ==>
      FirstMatch(table + [e], s, i) == if PrefixAt(s, i + 1, e.name) then |table| else |table| + 1
  {
    FirstFromAppend(table, e, s, i, 0);
  }

  lemma {:induction false} FirstFromAppend(table: seq<Entity>, e: Entity, s: string, i: nat, k: nat)
    requires k <= |table|
    ensures FirstFrom(table, s, i, k) < |table| ==> FirstFrom(table + [e], s, i, k) == FirstFrom(table, s, i, k)
    ensures FirstFrom(table, s, i, k) == |table| ==>
      FirstFrom(table + [e], s, i, k) == if PrefixAt(s, i + 1, e.name) then |table| else |table| + 1
    decreases |table| - k
  {
    if k < |table| {
      assert (table + [e])[k] == table[k];
      FirstFromAppend(table, e, s, i, k + 1);
    }
  }

  // ----- the reference graph -----

  predicate Amp(s: string, i: nat) {
    i < |s| && s[i] == '&'
  }

  /** Every reference of `s` leads to an entity of rank below `level`. */
  ghost predicate Below(table: seq<Entity>, rank: seq<nat>, s: string, level: nat)
    requires |rank| == |table|
  {
    forall i {:trigger FirstMatch(table, s, i)} :: 0 <= i < |s| && Amp(s, i) && FirstMatch(table, s, i) < |table| ==>
      rank[FirstMatch(table, s, i)] < level
  }

  /** References lead to entities of smaller rank. */
  ghost predicate Ranked(table: seq<Entity>, rank: seq<nat>) {
    |rank| == |table| && forall k {:trigger table[k]} :: 0 <= k < |table| ==>
      Below(table, rank, table[k].value, rank[k])
  }

  /** No entity reaches itself. */
  ghost predicate Acyclic(table: seq<Entity>) {
    exists rank :: Ranked(table, rank)
  }

  /** `name` is referred to neither in `s` nor in any entity that `s` reaches. */
  ghost predicate Avoids(name: string, s: string, table: seq<Entity>, rank: seq<nat>, level: nat)
    requires Ranked(table, rank) && Below(table, rank, s, level)
    decreases level, 1
  {
    forall i {:trigger Amp(s, i)} :: 0 <= i < |s| && Amp(s, i) ==> AvoidsAt(name, s, table, rank, level, i)
  }

  ghost predicate AvoidsAt(name: string, s: string, table: seq<Entity>, rank: seq<nat>, level: nat, i: nat)
    requires Ranked(table, rank) && Below(table, rank, s, level) && Amp(s, i)
    decreases level, 0
  {
    && !PrefixAt(s, i + 1, name)
    && var j := FirstMatch(table, s, i);
      (j < |table| ==> Avoids(name, table[j].value, table, rank, rank[j]))
  }

  /** ezxml_ent_ok: ends on every table without cycles, and finds exactly the references to `name` that can be
      reached. */
  method EntOk(name: string, s: string, table: seq<Entity>, ghost rank: seq<nat>, ghost level: nat) returns (ok: bool)
    requires Ranked(table, rank) && Below(table, rank, s, level)
    ensures ok <==> Avoids(name, s, table, rank, level)
    decreases level
  {
    var i := 0;
    while i < |s|
      invariant i <= |s|
      invariant forall k {:trigger Amp(s, k)} :: 0 <= k < i && Amp(s, k) ==> AvoidsAt(name, s, table, rank, level, k)
    {
      if s[i] == '&' {
        assert Amp(s, i);
        if PrefixAt(s, i + 1, name) { return false; }
        var j := FindEntity(table, s, i);
        if j < |table| {
          var inner := EntOk(name, table[j].value, table, rank, rank[j]);
          if !inner { return false; }
        }
      }
      i := i + 1;
    }
    return true;
  }

  // ----- declarations keep the graph acyclic -----

  /** The entities that `s` reaches. */
  ghost predicate Reaches(s: string, table: seq<Entity>, rank: seq<nat>, level: nat, x: nat)
    requires Ranked(table, rank) && Below(table, rank, s, level)
    decreases level
  {
    exists i {:trigger Amp(s, i)} :: 0 <= i < |s| && Amp(s, i) && var j := FirstMatch(table, s, i);
      j < |table| && (x == j || Reaches(table[j].value, table, rank, rank[j], x))
  }

  lemma {:induction false} AvoidsEach(name: string, s: string, table: seq<Entity>, rank: seq<nat>, level: nat, i: nat)
    requires Ranked(table, rank) && Below(table, rank, s, level) && Avoids(name, s, table, rank, level) && Amp(s, i)
    ensures AvoidsAt(name, s, table, rank, level, i)
  {
  }

  /** What a reached entity refers to is reached, and avoids what the start avoids. */
  lemma {:induction false} ReachedFurther(name: string, s: string, table: seq<Entity>, rank: seq<nat>, level: nat,
                                          x: nat, i: nat)
    requires Ranked(table, rank) && Below(table, rank, s, level) && Avoids(name, s, table, rank, level)
    requires x < |table| && Reaches(s, table, rank, level, x) && Amp(table[x].value, i)
    ensures !PrefixAt(table[x].value, i + 1, name)
    ensures FirstMatch(table, table[x].value, i) < |table| ==>
      Reaches(s, table, rank, level, FirstMatch(table, table[x].value, i))
    decreases level
  {
    var k :| 0 <= k < |s| && Amp(s, k) && FirstMatch(table, s, k) < |table| &&
      (x == FirstMatch(table, s, k)
        || Reaches(table[FirstMatch(table, s, k)].value, table, rank, rank[FirstMatch(table, s, k)], x));
    var j := FirstMatch(table, s, k);
    assert AvoidsAt(name, s, table, rank, level, k);
    if x == j {
      AvoidsEach(name, table[j].value, table, rank, rank[j], i);
      var y := FirstMatch(table, table[x].value, i);
      if y < |table| { assert Reaches(table[j].value, table, rank, rank[j], y); }
    } else {
      ReachedFurther(name, table[j].value, table, rank, rank[j], x, i);
    }
  }

  function MaxOf(rank: seq<nat>): (m: nat)
    ensures forall x :: 0 <= x < |rank| ==> rank[x] < m
  {
    if rank == [] then 0 else
      var m := MaxOf(rank[1..]);
      assert forall x :: 0 < x < |rank| ==> rank[x] == rank[1..][x - 1];
      if rank[0] < m then m else rank[0] + 1
  }

  /** Ranks after a declaration: what the new entity reaches stays, the new entity comes above, everything else
      above that. */
  ghost function NewRank(e: Entity, table: seq<Entity>, rank: seq<nat>): (r: seq<nat>)
    requires Ranked(table, rank) && Below(table, rank, e.value, MaxOf(rank))
    ensures |r| == |table| + 1 && r[|table|] == MaxOf(rank)
    ensures forall x: nat {:trigger r[x]} :: x < |table| ==>
      r[x] == if Reaches(e.value, table, rank, MaxOf(rank), x) then rank[x] else rank[x] + MaxOf(rank) + 1
  {
    seq(|table|, (x: nat) requires x < |table| => if Reaches(e.value, table, rank, MaxOf(rank), x) then rank[x]
      else rank[x] + MaxOf(rank) + 1) + [MaxOf(rank)]
  }

  /** An accepted declaration leaves a table without cycles, also when older entities already referred to the new
      name. */
  lemma {:induction false} DeclarationKeepsAcyclic(e: Entity, table: seq<Entity>, rank: seq<nat>)
    requires Ranked(table, rank) && Below(table, rank, e.value, MaxOf(rank))
    requires Avoids(e.name, e.value, table, rank, MaxOf(rank))
    ensures Ranked(table + [e], NewRank(e, table, rank))
  {
    var t, r, m := table + [e], NewRank(e, table, rank), MaxOf(rank);
    forall k {:trigger t[k]} | 0 <= k < |t| ensures Below(t, r, t[k].value, r[k]) {
      var s := t[k].value;
      forall i {:trigger FirstMatch(t, s, i)} | 0 <= i < |s| && Amp(s, i) && FirstMatch(t, s, i) < |t|
        ensures r[FirstMatch(t, s, i)] < r[k] {
        FirstAppend(table, e, s, i);
        if k == |table| {
          NewReference(e, table, rank, i);
        } else {
          assert t[k] == table[k];
          OldReference(e, table, rank, k, i);
        }
      }
    }
  }

  lemma {:induction false} NewReference(e: Entity, table: seq<Entity>, rank: seq<nat>, i: nat)
    requires Ranked(table, rank) && Below(table, rank, e.value, MaxOf(rank))
    requires Avoids(e.name, e.value, table, rank, MaxOf(rank)) && Amp(e.value, i)
    ensures !PrefixAt(e.value, i + 1, e.name)
    ensures FirstMatch(table, e.value, i) < |table| ==>
      NewRank(e, table, rank)[FirstMatch(table, e.value, i)] < MaxOf(rank)
  {
    assert AvoidsAt(e.name, e.value, table, rank, MaxOf(rank), i);
    var j := FirstMatch(table, e.value, i);
    if j < |table| { assert Reaches(e.value, table, rank, MaxOf(rank), j); }
  }

  lemma {:induction false} OldReference(e: Entity, table: seq<Entity>, rank: seq<nat>, k: nat, i: nat)
    requires Ranked(table, rank) && Below(table, rank, e.value, MaxOf(rank))
    requires Avoids(e.name, e.value, table, rank, MaxOf(rank))
    requires k < |table| && Amp(table[k].value, i)
    ensures var j, r := FirstMatch(table, table[k].value, i), NewRank(e, table, rank);
      (j < |table| ==> r[j] < r[k]) && (j == |table| && PrefixAt(table[k].value, i + 1, e.name) ==> MaxOf(rank) < r[k])
  {
    var j := FirstMatch(table, table[k].value, i);
    assert Below(table, rank, table[k].value, rank[k]);
    if Reaches(e.value, table, rank, MaxOf(rank), k) {
      ReachedFurther(e.name, e.value, table, rank, MaxOf(rank), k, i);
    }
  }

  lemma {:induction false} AllBelow(table: seq<Entity>, rank: seq<nat>, s: string)
    requires |rank| == |table|
    ensures Below(table, rank, s, MaxOf(rank))
  {
  }

  /** The general-entity table of a document; the reader only ever appends to it. */
  class EntityTable {
    var entities: seq<Entity>

    /** The five entities every document has. */
    constructor ()
      ensures entities == Predefined() && Acyclic(entities)
    {
      entities := Predefined();
      new;
      PredefinedRanked();
    }

    /** The ENTITY branch of ezxml_internal_dtd: `name` with its semicolon and the decoded value. A declaration is
        entered unless it would refer to its own name, directly or through others. */
    method Declare(name: string, value: string) returns (ok: bool)
      requires Acyclic(entities)
      modifies this
      ensures Acyclic(entities)
      ensures entities == if ok then old(entities) + [Entity(name, value)] else old(entities)
      ensures forall rank: seq<nat> {:trigger Ranked(old(entities), rank)} ::
        Ranked(old(entities), rank) && Below(old(entities), rank, value, MaxOf(rank)) ==>
        (ok <==> Avoids(name, value, old(entities), rank, MaxOf(rank)))
    {
      ghost var rank :| Ranked(entities, rank);
      AllBelow(entities, rank, value);
      ok := EntOk(name, value, entities, rank, MaxOf(rank));
      ghost var table, e := entities, Entity(name, value);
      if ok {
        DeclarationKeepsAcyclic(e, entities, rank);
        entities := entities + [Entity(name, value)];
      }
      forall other: seq<nat> {:trigger Ranked(table, other)} | Ranked(table, other)
        && Below(table, other, value, MaxOf(other))
        ensures ok <==> Avoids(name, value, table, other, MaxOf(other))
      {
        SameAnswer(name, value, table, rank, MaxOf(rank), other, MaxOf(other));
      }
    }
  }

  /** The answer does not depend on the ranks that show it can be computed. */
  lemma {:induction false} SameAnswer(name: string, s: string, table: seq<Entity>, rank: seq<nat>, level: nat,
                                      rank': seq<nat>, level': nat)
    requires Ranked(table, rank) && Below(table, rank, s, level) && Ranked(table, rank')
    requires Below(table, rank', s, level')
    ensures Avoids(name, s, table, rank, level) == Avoids(name, s, table, rank', level')
    decreases level
  {
    forall i {:trigger Amp(s, i)} | 0 <= i < |s| && Amp(s, i)
      ensures AvoidsAt(name, s, table, rank, level, i) == AvoidsAt(name, s, table, rank', level', i) {
      var j := FirstMatch(table, s, i);
      if j < |table| { SameAnswer(name, table[j].value, table, rank, rank[j], rank', rank'[j]); }
    }
  }

  function Predefined(): seq<Entity> {
    [Entity("lt;", "&#60;"), Entity("gt;", "&#62;"), Entity("quot;", "&#34;"), Entity("apos;", "&#39;"),
      Entity("amp;", "&#38;")]
  }

  lemma {:induction false} PredefinedParts(k: nat)
    requires k < 5
    ensures |Predefined()| == 5 && Predefined()[k].name != "" && Predefined()[k].name[0] != '#'
    ensures var v := Predefined()[k].value; |v| == 5 && v[1] == '#' && forall i :: 1 <= i < |v| ==> v[i] != '&'
  {
  }

  lemma {:induction false} PredefinedRanked()
    ensures Ranked(Predefined(), [0, 0, 0, 0, 0])
  {
    hide Predefined, PrefixAt;
    var t := Predefined();
    PredefinedParts(0);
    forall k {:trigger t[k]} | 0 <= k < |t| ensures Below(t, [0, 0, 0, 0, 0], t[k].value, 0) {
      var s := t[k].value;
      PredefinedParts(k);
      forall i {:trigger FirstMatch(t, s, i)} | 0 <= i < |s| && Amp(s, i) ensures FirstMatch(t, s, i) == |t| {
        assert i == 0;
        forall l {:trigger t[l]} | 0 <= l < |t| ensures !PrefixAt(s, i + 1, t[l].name) {
          PredefinedParts(l);
          FirstDiffers(s, i + 1, t[l].name);
        }
      }
    }
  }

  lemma {:induction false} FirstDiffers(s: string, i: nat, p: string)
    requires i < |s| && p != [] && s[i] != p[0]
    ensures !PrefixAt(s, i, p)
  {
    if i + |p| <= |s| { assert s[i..i + |p|][0] == s[i]; }
  }
}
