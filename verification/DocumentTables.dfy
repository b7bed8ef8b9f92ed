/** The entity tables that documents get, and the way out and back of a text through one of them. */
module DocumentTables {
  import opened Wrappers
  import opened EntityTables
  import opened EntityDecode
  import opened EntityScanner
  import opened LineEndings
  import opened XmlEscapes

  /** A declaration whose name ends in the first semicolon and whose value closes every reference. */
  predicate Declarable(e: Entity) {
    NameOk(e.name) && Complete(e.value)
  }

  /** What decoding asks of a table. */
  ghost predicate DocumentTable(table: seq<Entity>) {
    Acyclic(table) && TableOk(table) && Standard(table)
  }

  lemma {:induction false} PredefinedDocument()
    ensures Acyclic(Predefined()) ==> DocumentTable(Predefined())
  {
    var t := Predefined();
    assert t[..5] == t;
    forall k {:trigger t[k]} | 0 <= k < |t| ensures NameOk(t[k].name) && Complete(t[k].value) {
      var v := t[k].value;
      assert |v| == 5 && v[4] == ';';
      forall i {:trigger v[i]} | 0 <= i < |v| && v[i] == '&' ensures exists l :: i < l < |v| && v[l] == ';' {
        assert v[4] == ';';
      }
    }
  }

  lemma {:induction false} DeclaredDocument(table: seq<Entity>, e: Entity)
    requires DocumentTable(table) && Declarable(e) && Acyclic(table + [e])
    ensures DocumentTable(table + [e])
  {
    assert (table + [e])[..5] == table[..5];
  }

  /** The circularity check lets the declaration pass. */
  ghost predicate Accepted(e: Entity, table: seq<Entity>) {
    forall rank: seq<nat> {:trigger Ranked(table, rank)} ::
      Ranked(table, rank) && Below(table, rank, e.value, MaxOf(rank)) ==>
      Avoids(e.name, e.value, table, rank, MaxOf(rank))
  }

  /** The table after the first `k` declarations. */
  function TableAfter(declarations: seq<Entity>, k: nat): seq<Entity>
    requires k <= |declarations|
  {
    Predefined() + declarations[..k]
  }

  /** One declaration. */
  method DeclareOne(table: EntityTable, e: Entity) returns (ok: bool)
    requires Acyclic(table.entities)
    modifies table
    ensures ok <==> Accepted(e, old(table.entities))
    ensures table.entities == if ok then old(table.entities) + [e] else old(table.entities)
    ensures Acyclic(table.entities)
  {
    hide Below, Avoids;
    ghost var before := table.entities;
    ghost var rank :| Ranked(before, rank);
    AllBelow(before, rank, e.value);
    ok := table.Declare(e.name, e.value);
  }

  /** The table of a document with these declarations. At the first one that would close a circle the reader stops: the
      table has the declarations before it, and none behind it. */
  method DeclareAll(declarations: seq<Entity>) returns (table: EntityTable, taken: nat)
    requires forall k {:trigger declarations[k]} :: 0 <= k < |declarations| ==> Declarable(declarations[k])
    ensures fresh(table) && DocumentTable(table.entities)
    ensures taken <= |declarations| && table.entities == TableAfter(declarations, taken)
    ensures forall k {:trigger declarations[k]} :: 0 <= k < taken ==>
      Accepted(declarations[k], TableAfter(declarations, k))
    ensures taken < |declarations| ==> !Accepted(declarations[taken], table.entities)
  {
    hide Declarable, DocumentTable, Acyclic, Accepted;
    table := new EntityTable();
    PredefinedDocument();
    taken := 0;
    while taken < |declarations|
      invariant fresh(table) && DocumentTable(table.entities)
      invariant taken <= |declarations| && table.entities == TableAfter(declarations, taken)
      invariant forall k {:trigger declarations[k]} :: 0 <= k < taken ==>
        Accepted(declarations[k], TableAfter(declarations, k))
      decreases |declarations| - taken
    {
      ghost var before := table.entities;
      var e := declarations[taken];
      DocumentAcyclic(before);
      var ok := DeclareOne(table, e);
      if !ok { return; }
      DeclaredDocument(before, e);
      taken := taken + 1;
    }
  }

  lemma {:induction false} DocumentAcyclic(table: seq<Entity>)
    requires DocumentTable(table)
    ensures Acyclic(table) && TableOk(table) && Standard(table)
  {
  }

  /** A text encoded for a document and decoded with its table: it comes back exactly when it survives. */
  method OutAndBack(s: string, attribute: bool, declarations: seq<Entity>) returns (back: string, inside: bool)
    requires forall k {:trigger declarations[k]} :: 0 <= k < |declarations| ==> Declarable(declarations[k])
    ensures inside && (back == s <==> Survives(s, attribute))
  {
    hide Declarable, TableOk, Standard, Expand, Escaped, Survives, Unix, Below;
    var table, taken := DeclareAll(declarations);
    DocumentAcyclic(table.entities);
    ghost var rank :| Ranked(table.entities, rank);
    DecodingUndoesEncoding(s, table.entities, attribute, rank);
    var out := AmpEncode(s, "", attribute);
    assert "" + Escaped(UpToNul(s), attribute) == Escaped(UpToNul(s), attribute);
    back, inside := Decode(out, table.entities, if attribute then Attribute else Content, rank);
  }
}
