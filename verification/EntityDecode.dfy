/** ezxml_decode: references are replaced in place and the replacement is scanned again. */
module EntityDecode {
  import opened Wrappers
  import opened EntityTables

  /** What is decoded: character content, a CDATA section, or an attribute value. */
  datatype Mode = Content | CData | Attribute

  predicate IsSpace(c: char) {
    c == ' ' || 9 <= c as int <= 13
  }

  // ----- character references -----

  function Digit(c: char, base: nat): Option<nat> {
    if '0' <= c <= '9' then Some(c as int - '0' as int)
    else if base == 16 && 'a' <= c <= 'f' then Some(c as int - 'a' as int + 10)
    else if base == 16 && 'A' <= c <= 'F' then Some(c as int - 'A' as int + 10)
    else None
  }

  /** The end of the white space that starts at `i`. */
  function Blanks(s: string, i: nat): (r: nat)
    requires i <= |s|
    ensures i <= r <= |s| && (forall k {:trigger s[k]} :: i <= k < r ==> IsSpace(s[k])) && (r < |s| ==> !IsSpace(s[r]))
    decreases |s| - i
  {
    if i < |s| && IsSpace(s[i]) then Blanks(s, i + 1) else i
  }

  predicate IsSign(c: char) { c == '+' || c == '-' }

  /** Behind the prefix of a hexadecimal number, if there is one with a digit behind it. */
  function HexStart(s: string, i: nat, base: nat): nat {
    if base == 16 && i + 2 < |s| && s[i] == '0' && (s[i + 1] == 'x' || s[i + 1] == 'X')
      && Digit(s[i + 2], 16).Some? then i + 2 else i
  }

  /** Where the digits of the number at `i` start: behind white space, a sign and a prefix. */
  function NumberStart(s: string, i: nat, base: nat): (r: nat)
    requires i <= |s|
    ensures i <= r <= |s| && forall k {:trigger s[k]} :: i <= k < r ==> s[k] != ';'
  {
    var b := Blanks(s, i);
    HexStart(s, if b < |s| && IsSign(s[b]) then b + 1 else b, base)
  }

  predicate Negative(s: string, i: nat)
    requires i <= |s|
  {
    Blanks(s, i) < |s| && s[Blanks(s, i)] == '-'
  }

  /** strtol on the text from `i` on: the end of the number, and its value. */
  function Number(s: string, i: nat, base: nat): (r: (nat, int))
    requires i <= |s|
    ensures i <= r.0 <= |s| && forall k {:trigger s[k]} :: i <= k < r.0 ==> s[k] != ';'
  {
    var (e, c) := Digits(s, NumberStart(s, i, base), base, 0);
    (e, if Negative(s, i) then 0 - c else c)
  }

  /** A number that starts with a digit, and not with a prefix. */
  lemma {:induction false} PlainNumber(s: string, i: nat, base: nat)
    requires i < |s| && Digit(s[i], base).Some? && HexStart(s, i, base) == i
    ensures Number(s, i, base) == Digits(s, i, base, 0)
  {
    assert Blanks(s, i) == i && !IsSign(s[i]);
    hide Digits;
  }

  /** The end of the digits that start at `i`, and their value after `acc`. */
  function Digits(s: string, i: nat, base: nat, acc: nat): (r: (nat, nat))
    requires i <= |s|
    ensures i <= r.0 <= |s| && (forall k {:trigger s[k]} :: i <= k < r.0 ==> Digit(s[k], base).Some?)
    ensures (r.0 < |s| ==> Digit(s[r.0], base).None?)
    decreases |s| - i
  {
    if i < |s| && Digit(s[i], base).Some? then Digits(s, i + 1, base, acc * base + Digit(s[i], base).value)
      else (i, acc)
  }

  /** A number in decimal or, after an x, in hexadecimal, between `&#` and a semicolon: its value, which can be
      negative but not 0, and the position of the semicolon. */
  function CharRef(s: string): (r: Option<(int, nat)>)
    ensures r.Some? ==>
      r.value.0 != 0 && 3 <= r.value.1 < |s| && s[r.value.1] == ';' && forall k {:trigger s[k]} ::
        0 <= k < r.value.1 ==> s[k] != ';'
  {
    if |s| < 3 || s[0] != '&' || s[1] != '#' then None
    else
      var hex := s[2] == 'x';
      var (e, c) := Number(s, if hex then 3 else 2, if hex then 16 else 10);
      if c == 0 || e == |s| || s[e] != ';' then None else Some((c, e))
  }

  /** Number of binary digits. */
  function BitCount(c: nat): nat {
    if c == 0 then 0 else 1 + BitCount(c / 2)
  }

  /** Shifted right by `b` groups of six bits. */
  function Downshifted(c: nat, b: nat): nat {
    if b == 0 then c else Downshifted(c / 64, b - 1)
  }

  /** Bytes behind the first one, by the bit count. */
  function PayloadSize(c: nat): nat {
    if BitCount(c) < 2 then 0 else (BitCount(c) - 2) / 5
  }

  /** The mark of the first byte: 0xFF shifted left by 7 - b, in eight bits. */
  function HeadMark(b: nat): nat {
    if b == 0 then 0x80 else if b == 1 then 0xC0 else if b == 2 then 0xE0 else if b == 3 then 0xF0
      else if b == 4 then 0xF8 else if b == 5 then 0xFC
    else if b == 6 then 0xFE else 0xFF
  }

  function Byte(x: int): (r: char)
    ensures r as int == x % 256
  {
    (x % 256) as char
  }

  /** The low `b` groups of six bits, highest first. */
  function Payload(c: nat, b: nat): (r: string)
    ensures |r| == b
  {
    if b == 0 then "" else [Byte(0x80 + Downshifted(c, b - 1) % 64)] + Payload(c, b - 1)
  }

  /** The bytes a code point is written as. A negative number is cut to its low byte. */
  function Utf8(c: int): (r: string)
    ensures |r| >= 1 && (0 <= c < 0x80 ==> r == [c as char])
  {
    if c < 0x80 then [Byte(c)]
    else
      var b := PayloadSize(c);
      [Byte(HeadMark(b) + Downshifted(c, b))] + Payload(c, b)
  }

  // ----- what decoding means -----

  /** The decoded text, and how many steps the scanner takes for it. */
  datatype Expansion = Expansion(text: string, steps: nat)

  predicate NameOk(name: string) {
    name != "" && name[0] != '#' && name[|name| - 1] == ';' && forall k :: 0 <= k < |name| - 1 ==> name[k] != ';'
  }

  /** Every ampersand has its semicolon in the same text. */
  predicate Complete(v: string) {
    forall i {:trigger v[i]} :: 0 <= i < |v| && v[i] == '&' ==> exists k :: i < k < |v| && v[k] == ';'
  }

  predicate TableOk(table: seq<Entity>) {
    forall k {:trigger table[k]} :: 0 <= k < |table| ==> NameOk(table[k].name) && Complete(table[k].value)
  }

  lemma {:induction false} SuffixPrefix(s: string, k: nat, i: nat, p: string)
    requires k <= |s|
    ensures PrefixAt(s[k..], i, p) == PrefixAt(s, i + k, p)
  {
    if k + i + |p| <= |s| { assert s[k..][i..i + |p|] == s[i + k..i + k + |p|]; }
  }

  lemma {:induction false} SuffixMatch(table: seq<Entity>, s: string, k: nat, i: nat, l: nat)
    requires k <= |s| && l <= |table|
    ensures FirstFrom(table, s[k..], i, l) == FirstFrom(table, s, i + k, l)
    decreases |table| - l
  {
    if l < |table| {
      SuffixPrefix(s, k, i + 1, table[l].name);
      SuffixMatch(table, s, k, i, l + 1);
    }
  }

  lemma {:induction false} SuffixBelow(table: seq<Entity>, rank: seq<nat>, s: string, level: nat, k: nat)
    requires |rank| == |table| && Below(table, rank, s, level) && k <= |s|
    ensures Below(table, rank, s[k..], level)
  {
    var r := s[k..];
    forall i {:trigger FirstMatch(table, r, i)} | 0 <= i < |r| && Amp(r, i) && FirstMatch(table, r, i) < |table|
      ensures rank[FirstMatch(table, r, i)] < level {
      SuffixMatch(table, s, k, i, 0);
      assert Amp(s, i + k) && FirstMatch(table, s, i + k) == FirstMatch(table, r, i);
    }
  }

  /** The text with every reference replaced, those in replacements included. */
  ghost function Expand(table: seq<Entity>, rank: seq<nat>, level: nat, mode: Mode, s: string): Expansion
    requires Ranked(table, rank) && Below(table, rank, s, level)
    decreases level, |s|
  {
    if s == "" then Expansion("", 0)
    else if mode != CData && CharRef(s).Some? then
      var (c, e) := CharRef(s).value;
      SuffixBelow(table, rank, s, level, e + 1);
      var rest := Expand(table, rank, level, mode, s[e + 1..]);
      Expansion(Utf8(c) + rest.text, 1 + rest.steps)
    else if mode != CData && s[0] == '&' && FirstMatch(table, s, 0) < |table| then
      var j := FirstMatch(table, s, 0);
      assert Amp(s, 0);
      SuffixBelow(table, rank, s, level, 1 + |table[j].name|);
      var value := Expand(table, rank, rank[j], mode, table[j].value);
      var rest := Expand(table, rank, level, mode, s[1 + |table[j].name|..]);
      Expansion(value.text + rest.text, 1 + value.steps + rest.steps)
    else
      SuffixBelow(table, rank, s, level, 1);
      var rest := Expand(table, rank, level, mode, s[1..]);
      Expansion([if mode == Attribute && IsSpace(s[0]) then ' ' else s[0]] + rest.text, 1 + rest.steps)
  }

  /** Ranks only show that the expansion ends; they do not change it. */
  lemma {:induction false} ExpandLevel(table: seq<Entity>, rank: seq<nat>, level: nat, rank': seq<nat>, level': nat,
                                       mode: Mode, s: string)
    requires Ranked(table, rank) && Below(table, rank, s, level) && Ranked(table, rank')
    requires Below(table, rank', s, level')
    ensures Expand(table, rank, level, mode, s) == Expand(table, rank', level', mode, s)
    decreases level, |s|
  {
    hide CharRef, Utf8, IsSpace;
    if s == "" {
    } else if mode != CData && CharRef(s).Some? {
      var k := CharRef(s).value.1 + 1;
      SuffixBelow(table, rank, s, level, k);
      SuffixBelow(table, rank', s, level', k);
      ExpandLevel(table, rank, level, rank', level', mode, s[k..]);
    } else if mode != CData && s[0] == '&' && FirstMatch(table, s, 0) < |table| {
      var j := FirstMatch(table, s, 0);
      var k := 1 + |table[j].name|;
      assert Amp(s, 0);
      SuffixBelow(table, rank, s, level, k);
      SuffixBelow(table, rank', s, level', k);
      ExpandLevel(table, rank, rank[j], rank', rank'[j], mode, table[j].value);
      ExpandLevel(table, rank, level, rank', level', mode, s[k..]);
    } else {
      SuffixBelow(table, rank, s, level, 1);
      SuffixBelow(table, rank', s, level', 1);
      ExpandLevel(table, rank, level, rank', level', mode, s[1..]);
    }
  }

  // ----- replacements are closed -----

  lemma {:induction false} PrefixLocal(v: string, rest: string, p: string)
    requires NameOk(p) && exists k :: 0 < k < |v| && v[k] == ';'
    ensures PrefixAt(v + rest, 1, p) == PrefixAt(v, 1, p)
  {
    var k :| 0 < k < |v| && v[k] == ';';
    var s := v + rest;
    assert s[k] == ';';
    if PrefixAt(s, 1, p) {
      NameEnds(s, p, k);
      assert s[1..1 + |p|] == v[1..1 + |p|];
    }
    if PrefixAt(v, 1, p) { assert s[1..1 + |p|] == v[1..1 + |p|]; }
  }

  /** A name ends at the first semicolon. */
  lemma {:induction false} NameEnds(s: string, p: string, k: nat)
    requires NameOk(p) && PrefixAt(s, 1, p) && 0 < k < |s| && s[k] == ';'
    ensures |p| <= k && s[|p|] == ';'
  {
    assert forall m {:trigger s[m]} :: 1 <= m <= |p| ==> s[m] == s[1..1 + |p|][m - 1] == p[m - 1];
  }

  lemma {:induction false} MatchLocal(table: seq<Entity>, v: string, rest: string, l: nat)
    requires TableOk(table) && l <= |table| && exists k :: 0 < k < |v| && v[k] == ';'
    ensures FirstFrom(table, v + rest, 0, l) == FirstFrom(table, v, 0, l)
    decreases |table| - l
  {
    if l < |table| {
      PrefixLocal(v, rest, table[l].name);
      MatchLocal(table, v, rest, l + 1);
    }
  }

  lemma {:induction false} DigitsLocal(v: string, rest: string, i: nat, base: nat, acc: nat)
    requires i <= |v| && exists k :: i <= k < |v| && v[k] == ';'
    ensures Digits(v + rest, i, base, acc) == Digits(v, i, base, acc) && Digits(v, i, base, acc).0 < |v|
    decreases |v| - i
  {
    if Digit(v[i], base).Some? {
      var k :| i <= k < |v| && v[k] == ';';
      assert k != i;
      DigitsLocal(v, rest, i + 1, base, acc * base + Digit(v[i], base).value);
    }
  }

  lemma {:induction false} RefLocal(v: string, rest: string)
    requires v != "" && v[0] == '&' && exists k :: 0 < k < |v| && v[k] == ';'
    ensures CharRef(v + rest) == CharRef(v)
  {
    var k :| 0 < k < |v| && v[k] == ';';
    var s := v + rest;
    if |s| >= 3 && s[1] == '#' {
      assert k >= 2 && |v| >= 3;
      var hex := s[2] == 'x';
      assert hex ==> k >= 3;
      NumberLocal(v, rest, if hex then 3 else 2, if hex then 16 else 10);
    }
  }

  lemma {:induction false} BlanksLocal(v: string, rest: string, i: nat)
    requires i <= |v| && exists k :: i <= k < |v| && v[k] == ';'
    ensures Blanks(v + rest, i) == Blanks(v, i) < |v|
    decreases |v| - i
  {
    if IsSpace(v[i]) {
      var k :| i <= k < |v| && v[k] == ';';
      assert k != i;
      BlanksLocal(v, rest, i + 1);
    }
  }

  lemma {:induction false} HexLocal(v: string, rest: string, p: nat, base: nat, k: nat)
    requires p <= k < |v| && v[k] == ';'
    ensures HexStart(v + rest, p, base) == HexStart(v, p, base) <= k
  {
    hide Digit;
    var s := v + rest;
    if v[p] == '0' {
      assert p < k;
      if v[p + 1] != ';' { assert s[p + 1] == v[p + 1] && s[p + 2] == v[p + 2]; }
    }
  }

  lemma {:induction false} NumberLocal(v: string, rest: string, i: nat, base: nat)
    requires i <= |v| && exists k :: i <= k < |v| && v[k] == ';'
    ensures Number(v + rest, i, base) == Number(v, i, base) && Number(v, i, base).0 < |v|
  {
    hide Digits, Blanks, HexStart;
    var k :| i <= k < |v| && v[k] == ';';
    BlanksLocal(v, rest, i);
    var s, b := v + rest, Blanks(v, i);
    assert s[b] == v[b];
    assert forall m {:trigger v[m]} :: i <= m < b ==> v[m] != ';';
    var p: nat := if IsSign(v[b]) then b + 1 else b;
    HexLocal(v, rest, p, base, k);
    DigitsLocal(v, rest, NumberStart(v, i, base), base, 0);
  }

  lemma {:induction false} CompleteSuffix(v: string, k: nat)
    requires Complete(v) && k <= |v|
    ensures Complete(v[k..])
  {
    forall i {:trigger v[k..][i]} | 0 <= i < |v[k..]| && v[k..][i] == '&'
      ensures exists l :: i < l < |v[k..]| && v[k..][l] == ';' {
      assert v[k + i] == '&';
      var l :| k + i < l < |v| && v[l] == ';';
      assert v[k..][l - k] == ';';
    }
  }

  /** A closed replacement and what follows it expand separately. */
  lemma {:induction false} ExpandAppend(table: seq<Entity>, rank: seq<nat>, level: nat, mode: Mode, v: string,
                                        rest: string)
    requires Ranked(table, rank) && TableOk(table) && Complete(v) && Below(table, rank, v, level)
    requires Below(table, rank, rest, level)
    ensures Below(table, rank, v + rest, level)
    ensures var x, y := Expand(table, rank, level, mode, v), Expand(table, rank, level, mode, rest);
      Expand(table, rank, level, mode, v + rest) == Expansion(x.text + y.text, x.steps + y.steps)
    decreases |v|
  {
    AppendBelow(table, rank, level, v, rest);
    if v == "" {
      assert v + rest == rest;
      assert "" + Expand(table, rank, level, mode, rest).text == Expand(table, rank, level, mode, rest).text;
    } else {
      hide Expand, Head, Taken;
      var k := Taken(table, mode, v);
      HeadLocal(table, mode, v, rest);
      assert (v + rest)[k..] == v[k..] + rest;
      SuffixBelow(table, rank, v, level, k);
      CompleteSuffix(v, k);
      ExpandAppend(table, rank, level, mode, v[k..], rest);
      HeadSplit(table, rank, level, mode, v);
      HeadSplit(table, rank, level, mode, v + rest);
      HeadSame(table, rank, level, mode, v, rest);
      Regroup(Head(table, rank, level, mode, v).text, Expand(table, rank, level, mode, v[k..]).text,
        Expand(table, rank, level, mode, rest).text);
    }
  }

  lemma {:induction false} Regroup(a: string, b: string, c: string)
    ensures a + (b + c) == (a + b) + c
  {
  }

  lemma {:induction false} HeadSame(table: seq<Entity>, rank: seq<nat>, level: nat, mode: Mode, v: string, rest: string)
    requires Ranked(table, rank) && TableOk(table) && Complete(v) && v != "" && Below(table, rank, v, level)
    requires Below(table, rank, v + rest, level)
    ensures Head(table, rank, level, mode, v + rest) == Head(table, rank, level, mode, v)
  {
    HeadLocal(table, mode, v, rest);
  }

  /** How much of the text the first step takes. */
  function Taken(table: seq<Entity>, mode: Mode, s: string): (k: nat)
    requires s != ""
    ensures 1 <= k <= |s|
  {
    if mode != CData && CharRef(s).Some? then CharRef(s).value.1 + 1
    else if mode != CData && s[0] == '&'
      && FirstMatch(table, s, 0) < |table| then 1 + |table[FirstMatch(table, s, 0)].name|
    else 1
  }

  /** What the first step puts there, with its steps. */
  ghost function Head(table: seq<Entity>, rank: seq<nat>, level: nat, mode: Mode, s: string): Expansion
    requires Ranked(table, rank) && Below(table, rank, s, level) && s != ""
  {
    if mode != CData && CharRef(s).Some? then Expansion(Utf8(CharRef(s).value.0), 1)
    else if mode != CData && s[0] == '&' && FirstMatch(table, s, 0) < |table| then
      var j := FirstMatch(table, s, 0);
      var value := Expand(table, rank, rank[j], mode, table[j].value);
      Expansion(value.text, 1 + value.steps)
    else Expansion([if mode == Attribute && IsSpace(s[0]) then ' ' else s[0]], 1)
  }

  lemma {:induction false} HeadSplit(table: seq<Entity>, rank: seq<nat>, level: nat, mode: Mode, s: string)
    requires Ranked(table, rank) && Below(table, rank, s, level) && s != ""
    ensures Below(table, rank, s[Taken(table, mode, s)..], level)
    ensures var h, r := Head(table, rank, level, mode, s), Expand(table, rank, level, mode, s[Taken(table, mode, s)..]);
      Expand(table, rank, level, mode, s) == Expansion(h.text + r.text, h.steps + r.steps)
  {
    SuffixBelow(table, rank, s, level, Taken(table, mode, s));
  }

  lemma {:induction false} HeadLocal(table: seq<Entity>, mode: Mode, v: string, rest: string)
    requires TableOk(table) && Complete(v) && v != ""
    ensures Taken(table, mode, v + rest) == Taken(table, mode, v) && (v + rest)[0] == v[0]
    ensures v[0] == '&' ==> CharRef(v + rest) == CharRef(v) && FirstMatch(table, v + rest, 0) == FirstMatch(table, v, 0)
    ensures v[0] != '&' ==> CharRef(v).None? && CharRef(v + rest).None?
  {
    if v[0] == '&' {
      RefLocal(v, rest);
      MatchLocal(table, v, rest, 0);
    }
  }

  lemma {:induction false} AppendBelow(table: seq<Entity>, rank: seq<nat>, level: nat, v: string, rest: string)
    requires |rank| == |table| && TableOk(table) && Complete(v) && Below(table, rank, v, level)
    requires Below(table, rank, rest, level)
    ensures Below(table, rank, v + rest, level)
  {
    var s := v + rest;
    forall i {:trigger FirstMatch(table, s, i)} | 0 <= i < |s| && Amp(s, i) && FirstMatch(table, s, i) < |table|
      ensures rank[FirstMatch(table, s, i)] < level {
      if i < |v| {
        InFront(table, v, rest, s, i);
        assert Amp(v, i);
      } else {
        assert s[|v|..] == rest && Amp(rest, i - |v|);
        SuffixMatch(table, s, |v|, i - |v|, 0);
        assert FirstMatch(table, s, i) == FirstMatch(table, rest, i - |v|);
      }
    }
  }

  lemma {:induction false} InFront(table: seq<Entity>, v: string, rest: string, s: string, i: nat)
    requires TableOk(table) && Complete(v) && s == v + rest && i < |v| && v[i] == '&'
    ensures FirstMatch(table, s, i) == FirstMatch(table, v, i)
  {
    hide PrefixAt;
    var w := v[i..];
    CompleteSuffix(v, i);
    assert s[i..] == w + rest && w[0] == '&';
    MatchLocal(table, w, rest, 0);
    SuffixMatch(table, s, i, 0, 0);
    SuffixMatch(table, v, i, 0, 0);
  }
}
