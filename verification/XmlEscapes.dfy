/** ezxml_ampencode, and that decoding undoes it. */
module XmlEscapes {
  import opened Wrappers
  import opened EntityTables
  import opened EntityDecode
  import opened EntityScanner
  import opened LineEndings

  function Escape(c: char, attribute: bool): (r: string)
    ensures forall k :: 0 <= k < |r| ==> r[k] != '\r' && (c != '\0' ==> r[k] != '\0')
    ensures r != ""
  {
    if c == '&' then "&amp;"
    else if c == '<' then "&lt;"
    else if c == '>' then "&gt;"
    else if c == '"' then (if attribute then "&quot;" else "\"")
    else if c == '\n' then (if attribute then "&#xA;" else "\n")
    else if c == '\t' then (if attribute then "&#x9;" else "\t")
    else if c == '\r' then "&#xD;"
    else [c]
  }

  function Escaped(s: string, attribute: bool): string {
    if s == "" then "" else Escape(s[0], attribute) + Escaped(s[1..], attribute)
  }

  lemma {:induction false} EscapedSnoc(s: string, c: char, attribute: bool)
    ensures Escaped(s + [c], attribute) == Escaped(s, attribute) + Escape(c, attribute)
  {
    if s == "" {
      assert "" + [c] == [c] && [c][1..] == "";
      assert Escaped([c], attribute) == Escape(c, attribute) + "";
    } else {
      assert (s + [c])[1..] == s[1..] + [c];
      EscapedSnoc(s[1..], c, attribute);
      Regroup(Escape(s[0], attribute), Escaped(s[1..], attribute), Escape(c, attribute));
    }
  }

  /** The encoded text is appended to `dst`; a terminator ends the input. */
  method AmpEncode(s: string, dst: string, attribute: bool) returns (r: string)
    ensures r == dst + Escaped(UpToNul(s), attribute)
  {
    r := dst;
    ghost var u := UpToNul(s);
    assert u[..0] == "" && dst + Escaped("", attribute) == dst;
    var i := 0;
    while i < |s|
      invariant i <= |u| && r == dst + Escaped(u[..i], attribute)
      decreases |s| - i
    {
      if s[i] == '\0' { break; }
      assert i < |u| && u[i] == s[i] && u[..i + 1] == u[..i] + [s[i]];
      EscapedSnoc(u[..i], s[i], attribute);
      Regroup(dst, Escaped(u[..i], attribute), Escape(s[i], attribute));
      r := r + Escape(s[i], attribute);
      i := i + 1;
    }
    assert i == |u| && u[..i] == u;
  }

  // ----- decoding one escape -----

  /** A table that starts with the five predefined entities, as every document's does. */
  predicate Standard(table: seq<Entity>) {
    |table| >= 5 && table[..5] == Predefined()
  }

  lemma {:induction false} PredefinedMatch(table: seq<Entity>, s: string, j: nat)
    requires Standard(table) && j < 5 && PrefixAt(s, 1, Predefined()[j].name) && |s| == 1 + |Predefined()[j].name|
    ensures FirstMatch(table, s, 0) == j
  {
    var name := Predefined()[j].name;
    assert forall k :: 0 <= k < 5 ==> table[k] == table[..5][k] == Predefined()[k];
    assert s[1..1 + |name|][0] == s[1];
    forall k | 0 <= k < j ensures !PrefixAt(s, 1, table[k].name) {
      FirstDiffersOrLonger(s, table[k].name, name);
    }
    assert PrefixAt(s, 1, table[j].name);
    assert forall k {:trigger table[k]} :: 0 <= k < j ==> !PrefixAt(s, 0 + 1, table[k].name);
  }

  lemma {:induction false} FirstDiffersOrLonger(s: string, p: string, name: string)
    requires |s| >= 2 && p != "" && (s[1] != p[0] || |s| < 1 + |p|)
    ensures !PrefixAt(s, 1, p)
  {
    if s[1] != p[0] { FirstDiffers(s, 1, p); }
  }

  lemma {:induction false} TwoDigits(v: string, base: nat, x: nat, y: nat)
    requires |v| == 5 && (base == 10 || base == 16) && Digit(v[2], base) == Some(x) && Digit(v[3], base) == Some(y)
    requires v[4] == ';'
    ensures Digits(v, 2, base, 0) == (4, x * base + y)
  {
    assert Digits(v, 4, base, x * base + y) == (4, x * base + y);
    assert Digits(v, 3, base, x) == (4, x * base + y);
    assert 0 * base + x == x;
  }

  /** The replacement texts of the predefined entities, and the character references of the encoder. */
  lemma {:induction false} DecimalRef(v: string, x: nat, y: nat)
    requires |v| == 5 && v[0] == '&' && v[1] == '#' && v[2] != 'x' && Digit(v[2], 10) == Some(x)
    requires Digit(v[3], 10) == Some(y) && v[4] == ';'
    requires 0 < x * 10 + y < 0x80
    ensures CharRef(v) == Some((x * 10 + y, 4)) && Complete(v)
  {
    TwoDigits(v, 10, x, y);
    PlainNumber(v, 2, 10);
    forall i {:trigger v[i]} | 0 <= i < |v| && v[i] == '&'
      ensures exists k :: i < k < |v| && v[k] == ';' { assert v[4] == ';'; }
  }

  lemma {:induction false} HexRef(v: string, x: nat)
    requires |v| == 5 && v[0] == '&' && v[1] == '#' && v[2] == 'x' && Digit(v[3], 16) == Some(x) && v[4] == ';' && x > 0
    ensures CharRef(v) == Some((x, 4)) && Complete(v)
  {
    assert Digits(v, 4, 16, x) == (4, x);
    assert Digits(v, 3, 16, 0) == (4, x);
    PlainNumber(v, 3, 16);
    forall i {:trigger v[i]} | 0 <= i < |v| && v[i] == '&'
      ensures exists k :: i < k < |v| && v[k] == ';' { assert v[4] == ';'; }
  }

  ghost predicate Decodes(table: seq<Entity>, rank: seq<nat>, mode: Mode, v: string, c: char)
    requires Ranked(table, rank)
  {
    Complete(v) && Below(table, rank, v, MaxOf(rank)) && Expand(table, rank, MaxOf(rank), mode, v).text == [c]
  }

  lemma {:induction false} WholeRef(table: seq<Entity>, rank: seq<nat>, level: nat, mode: Mode, v: string, c: nat)
    requires Ranked(table, rank) && Below(table, rank, v, level) && mode != CData && |v| == 5
    requires CharRef(v) == Some((c, 4)) && c < 0x80
    ensures Expand(table, rank, level, mode, v).text == [c as char]
  {
    SuffixBelow(table, rank, v, level, 5);
    assert v[5..] == "";
    assert [c as char] + "" == [c as char];
  }

  /** A text that is one entity reference. */
  lemma {:induction false} WholeEntity(table: seq<Entity>, rank: seq<nat>, level: nat, mode: Mode, s: string, j: nat,
                                       text: string)
    requires Ranked(table, rank) && Below(table, rank, s, level) && mode != CData && Amp(s, 0) && CharRef(s).None?
    requires j < |table| && FirstMatch(table, s, 0) == j && |s| == 1 + |table[j].name|
    requires Below(table, rank, table[j].value, rank[j])
    requires Expand(table, rank, rank[j], mode, table[j].value).text == text
    ensures Expand(table, rank, level, mode, s).text == text
  {
    hide CharRef, FirstMatch, Below;
    SuffixBelow(table, rank, s, level, |s|);
    assert s[|s|..] == "";
    assert text + "" == text;
  }

  lemma {:induction false} PredefinedShape(j: nat)
    requires j < 5
    ensures var name, v := Predefined()[j].name, Predefined()[j].value;
      |name| > 0 && name[0] != '#' && name[|name| - 1] == ';' && |v| == 5 && v[..2] == "&#" && v[2] != 'x'
        && v[4] == ';'
  {
  }

  lemma {:induction false} NamedComplete(s: string)
    requires |s| > 1 && s[|s| - 1] == ';'
    ensures Complete(s)
  {
    forall i {:trigger s[i]} | 0 <= i < |s| && s[i] == '&'
      ensures exists k :: i < k < |s| && s[k] == ';' { assert s[|s| - 1] == ';'; }
  }

  lemma {:induction false} NoCharRef(s: string)
    requires |s| > 1 && s[1] != '#'
    ensures CharRef(s).None?
  {
  }

  /** An escape that names a predefined entity. */
  lemma {:induction false} NamedEscape(table: seq<Entity>, rank: seq<nat>, mode: Mode, j: nat, x: nat, y: nat)
    requires Ranked(table, rank) && Standard(table) && mode != CData && j < 5
    requires |Predefined()[j].value| == 5 && 0 < x * 10 + y < 0x80
    requires var v := Predefined()[j].value; Digit(v[2], 10) == Some(x) && Digit(v[3], 10) == Some(y)
    ensures Decodes(table, rank, mode, "&" + Predefined()[j].name, (x * 10 + y) as char)
  {
    hide CharRef, FirstMatch, Below, Predefined, Expand, Complete, Digit;
    var s, v, level := "&" + Predefined()[j].name, Predefined()[j].value, MaxOf(rank);
    PredefinedShape(j);
    assert v[0] == v[..2][0] && v[1] == v[..2][1];
    assert s[1..] == Predefined()[j].name;
    PredefinedMatch(table, s, j);
    assert table[j] == table[..5][j] == Predefined()[j];
    DecimalRef(v, x, y);
    AllBelow(table, rank, s);
    WholeRef(table, rank, rank[j], mode, v, x * 10 + y);
    NoCharRef(s);
    WholeEntity(table, rank, level, mode, s, j, [(x * 10 + y) as char]);
    NamedComplete(s);
  }

  lemma {:induction false} NumberEscape(table: seq<Entity>, rank: seq<nat>, mode: Mode, v: string, x: nat)
    requires Ranked(table, rank) && mode != CData && |v| == 5 && v[0] == '&' && v[1] == '#' && v[2] == 'x'
    requires Digit(v[3], 16) == Some(x) && v[4] == ';' && 0 < x < 0x80
    ensures Decodes(table, rank, mode, v, x as char)
  {
    HexRef(v, x);
    AllBelow(table, rank, v);
    WholeRef(table, rank, MaxOf(rank), mode, v, x);
  }

  lemma {:induction false} PlainEscape(table: seq<Entity>, rank: seq<nat>, mode: Mode, c: char)
    requires Ranked(table, rank) && c != '&'
    ensures Decodes(table, rank, mode, [c], if mode == Attribute && IsSpace(c) then ' ' else c)
  {
    AllBelow(table, rank, [c]);
    SuffixBelow(table, rank, [c], MaxOf(rank), 1);
    assert [c][1..] == "";
  }

  /** What an escaped character comes back as: itself, but for two kinds of white space in attributes. */
  function Returned(c: char, attribute: bool): char {
    if attribute && (c as int == 11 || c as int == 12) then ' ' else c
  }

  lemma {:induction false} EscapeDecodes(table: seq<Entity>, rank: seq<nat>, c: char, attribute: bool)
    requires Ranked(table, rank) && Standard(table)
    ensures Decodes(table, rank, if attribute then Attribute else Content, Escape(c, attribute), Returned(c, attribute))
  {
    hide Decodes;
    var mode := if attribute then Attribute else Content;
    if c == '&' { NamedEscape(table, rank, mode, 4, 3, 8); assert "&" + "amp;" == "&amp;"; }
    else if c == '<' { NamedEscape(table, rank, mode, 0, 6, 0); assert "&" + "lt;" == "&lt;"; }
    else if c == '>' { NamedEscape(table, rank, mode, 1, 6, 2); assert "&" + "gt;" == "&gt;"; }
    else if c == '"' && attribute { NamedEscape(table, rank, mode, 2, 3, 4); assert "&" + "quot;" == "&quot;"; }
    else if c == '\n' && attribute { NumberEscape(table, rank, mode, "&#xA;", 10); }
    else if c == '\t' && attribute { NumberEscape(table, rank, mode, "&#x9;", 9); }
    else if c == '\r' { NumberEscape(table, rank, mode, "&#xD;", 13); }
    else { PlainEscape(table, rank, mode, c); }
  }

  // ----- the round trip -----

  function AllReturned(s: string, attribute: bool): (r: string)
    ensures |r| == |s| && forall k {:trigger r[k]} :: 0 <= k < |s| ==> r[k] == Returned(s[k], attribute)
  {
    seq(|s|, (k: nat) requires k < |s| => Returned(s[k], attribute))
  }

  lemma {:induction false} EscapedExpands(table: seq<Entity>, rank: seq<nat>, s: string, attribute: bool)
    requires Ranked(table, rank) && TableOk(table) && Standard(table)
    ensures var mode, e := if attribute then Attribute else Content, Escaped(s, attribute);
      Below(table, rank, e, MaxOf(rank)) && Expand(table, rank, MaxOf(rank), mode, e).text == AllReturned(s, attribute)
  {
    hide Number;
    var mode, e := if attribute then Attribute else Content, Escaped(s, attribute);
    AllBelow(table, rank, e);
    if s != "" {
      EscapedExpands(table, rank, s[1..], attribute);
      EscapeDecodes(table, rank, s[0], attribute);
      ExpandAppend(table, rank, MaxOf(rank), mode, Escape(s[0], attribute), Escaped(s[1..], attribute));
      assert AllReturned(s, attribute) == [Returned(s[0], attribute)] + AllReturned(s[1..], attribute);
    }
  }

  lemma {:induction false} NoReturns(s: string, attribute: bool)
    requires forall k :: 0 <= k < |s| ==> s[k] != '\0'
    ensures forall k :: 0 <= k < |Escaped(s, attribute)| ==>
      Escaped(s, attribute)[k] != '\r' && Escaped(s, attribute)[k] != '\0'
  {
    if s != "" { NoReturns(s[1..], attribute); }
  }

  /** A text with a vertical tab or a form feed does not come back from attribute encoding. */
  predicate Survives(s: string, attribute: bool) {
    (forall k :: 0 <= k < |s| ==> s[k] != '\0') && (attribute ==> forall k :: 0 <= k < |s| ==>
      s[k] as int != 11 && s[k] as int != 12)
  }

  lemma {:induction false} ReturnedExactly(s: string, attribute: bool)
    ensures AllReturned(UpToNul(s), attribute) == s <==> Survives(s, attribute)
  {
    var u := UpToNul(s);
    var r := AllReturned(u, attribute);
    if r == s {
      assert |u| == |s| && u == s;
      forall k | 0 <= k < |s| ensures Returned(s[k], attribute) == s[k] { assert r[k] == s[k]; }
    }
    if Survives(s, attribute) {
      assert |u| == |s| && u == s;
      assert forall k :: 0 <= k < |s| ==> r[k] == s[k];
    }
  }

  /** Decoding undoes encoding, in both modes and for every document's table, exactly for the texts that survive. */
  lemma {:induction false} DecodingUndoesEncoding(s: string, table: seq<Entity>, attribute: bool, rank: seq<nat>)
    requires Ranked(table, rank) && TableOk(table) && Standard(table)
    ensures var mode, e := if attribute then Attribute else Content, Escaped(UpToNul(s), attribute);
      && UpToNul(e) == e && !Overruns(e) && Unix(e) == e && Below(table, rank, e, MaxOf(rank))
      && (Expand(table, rank, MaxOf(rank), mode, e).text == s <==> Survives(s, attribute))
  {
    var u := UpToNul(s);
    NoReturns(u, attribute);
    UnixPlain(Escaped(u, attribute));
    EscapedExpands(table, rank, u, attribute);
    ReturnedExactly(s, attribute);
  }

  /** An attribute that is a vertical tab comes back as a blank. */
  lemma {:induction false} VerticalTabLost(table: seq<Entity>, rank: seq<nat>)
    requires Ranked(table, rank) && TableOk(table) && Standard(table)
    ensures Escaped(UpToNul([11 as char]), true) == [11 as char] && !Survives([11 as char], true)
    ensures Below(table, rank, [11 as char], MaxOf(rank))
    ensures Expand(table, rank, MaxOf(rank), Attribute, [11 as char]).text == " "
  {
    var s := [11 as char];
    assert UpToNul(s) == s && s[1..] == "";
    EscapedExpands(table, rank, s, true);
    assert AllReturned(s, true) == [Returned(s[0], true)] + AllReturned(s[1..], true);
  }
}
