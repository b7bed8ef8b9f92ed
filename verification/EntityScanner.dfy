/** The scanning loops of ezxml_decode on the text buffer. */
module EntityScanner {
  import opened Wrappers
  import opened EntityTables
  import opened EntityDecode
  import opened LineEndings

  // ----- numbers -----

  /** strtol: white space, a sign, a hexadecimal prefix and digits. */
  method StrToLong(s: string, start: nat, base: nat) returns (e: nat, c: int)
    requires start <= |s|
    ensures (e, c) == Number(s, start, base)
  {
    e := start;
    while e < |s| && IsSpace(s[e])
      invariant e <= |s| && Blanks(s, e) == Blanks(s, start)
    {
      e := e + 1;
    }
    var minus := e < |s| && s[e] == '-';
    if e < |s| && IsSign(s[e]) { e := e + 1; }
    if base == 16 && e + 2 < |s| && s[e] == '0' && (s[e + 1] == 'x' || s[e + 1] == 'X')
      && Digit(s[e + 2], 16).Some? { e := e + 2; }
    assert e == NumberStart(s, start, base) && minus == Negative(s, start);
    var value: nat;
    e, value := ReadDigits(s, e, base);
    c := if minus then 0 - value else value;
  }

  method ReadDigits(s: string, start: nat, base: nat) returns (e: nat, c: nat)
    requires start <= |s|
    ensures (e, c) == Digits(s, start, base, 0)
  {
    e, c := start, 0;
    while e < |s| && Digit(s[e], base).Some?
      invariant e <= |s| && Digits(s, e, base, c) == Digits(s, start, base, 0)
    {
      c := c * base + Digit(s[e], base).value;
      e := e + 1;
    }
  }

  method CountBits(c: nat) returns (b: nat)
    ensures b == BitCount(c)
  {
    var d := c;
    b := 0;
    while d != 0
      invariant b + BitCount(d) == BitCount(c)
      decreases d
    {
      d := d / 2;
      b := b + 1;
    }
  }

  method WritePayload(c: nat, n: nat, head: string) returns (bytes: string)
    ensures bytes == head + Payload(c, n)
  {
    var b: nat := n;
    bytes := head;
    while b != 0
      invariant b <= n && bytes + Payload(c, b) == head + Payload(c, n)
    {
      b := b - 1;
      var byte := Byte(0x80 + Downshifted(c, b) % 64);
      Regroup(bytes, [byte], Payload(c, b));
      bytes := bytes + [byte];
    }
    assert bytes + "" == bytes;
  }

  /** The multi-byte branch: the bits are counted, then the head and the payload written. */
  method WriteUtf8(c: int) returns (bytes: string)
    ensures bytes == Utf8(c)
  {
    if c < 0x80 { return [Byte(c)]; }
    var b := CountBits(c);
    b := if b < 2 then 0 else (b - 2) / 5;
    bytes := WritePayload(c, b, [Byte(HeadMark(b) + Downshifted(c, b))]);
  }

  lemma {:induction false} BitsGrow(a: nat, b: nat)
    requires a <= b
    ensures BitCount(a) <= BitCount(b)
  {
    if a > 0 { BitsGrow(a / 2, b / 2); }
  }

  lemma {:induction false} FourBits(x: nat, y: nat)
    requires y <= 16 * x + 15
    ensures BitCount(y) <= BitCount(x) + 4
  {
    BitsGrow(y, 16 * x + 15);
    assert (16 * x + 15) / 2 == 8 * x + 7 && (8 * x + 7) / 2 == 4 * x + 3 && (4 * x + 3) / 2 == 2 * x + 1
      && (2 * x + 1) / 2 == x;
    assert BitCount(2 * x + 1) == 1 + BitCount(x);
    assert BitCount(4 * x + 3) == 1 + BitCount(2 * x + 1);
    assert BitCount(8 * x + 7) == 1 + BitCount(4 * x + 3);
    assert BitCount(16 * x + 15) == 1 + BitCount(8 * x + 7);
  }

  lemma {:induction false} DigitsBits(s: string, i: nat, base: nat, acc: nat)
    requires i <= |s| && (base == 10 || base == 16)
    ensures var (e, c) := Digits(s, i, base, acc); BitCount(c) <= BitCount(acc) + 4 * (e - i)
    decreases |s| - i
  {
    if i < |s| && Digit(s[i], base).Some? {
      var acc' := acc * base + Digit(s[i], base).value;
      DigitsBits(s, i + 1, base, acc');
      FourBits(acc, acc');
    }
  }

  /** The bytes fit into the reference they replace, in front of its semicolon. */
  lemma {:induction false} BytesFit(s: string)
    requires CharRef(s).Some?
    ensures |Utf8(CharRef(s).value.0)| + 1 < CharRef(s).value.1
  {
    var hex := s[2] == 'x';
    var start, base := if hex then 3 else 2, if hex then 16 else 10;
    DigitsBits(s, NumberStart(s, start, base), base, 0);
  }

  // ----- the scanner -----

  /** The position of the first semicolon from `s` on: strchr. */
  method FindSemicolon(text: string, s: nat, ghost e: nat) returns (k: nat)
    requires s <= e < |text| && text[e] == ';' && forall i :: s <= i < e ==> text[i] != ';'
    ensures k == e
  {
    k := s;
    while k < |text| && text[k] != ';'
      invariant s <= k <= e
    {
      k := k + 1;
    }
  }

  /** Scanned up to `s`: what is done and what the rest expands to make the whole. */
  ghost predicate Scanned(table: seq<Entity>, rank: seq<nat>, mode: Mode, text: string, s: nat, goal: string)
    requires Ranked(table, rank)
  {
    s <= |text| && Below(table, rank, text[s..], MaxOf(rank))
      && text[..s] + Expand(table, rank, MaxOf(rank), mode, text[s..]).text == goal
  }

  ghost function StepsLeft(table: seq<Entity>, rank: seq<nat>, mode: Mode, text: string, s: nat): nat
    requires Ranked(table, rank) && s <= |text| && Below(table, rank, text[s..], MaxOf(rank))
  {
    Expand(table, rank, MaxOf(rank), mode, text[s..]).steps
  }

  /** A step that replaces the head of the rest by its final text `out`. */
  lemma {:induction false} HeadDone(table: seq<Entity>, rank: seq<nat>, mode: Mode, text: string, s: nat, goal: string,
                                    out: string, text': string, k: nat)
    requires Ranked(table, rank) && Scanned(table, rank, mode, text, s, goal) && s < |text|
    requires k == Taken(table, mode, text[s..])
    requires Head(table, rank, MaxOf(rank), mode, text[s..]) == Expansion(out, 1)
    requires text' == text[..s] + out + text[s + k..]
    ensures Scanned(table, rank, mode, text', s + |out|, goal)
    ensures StepsLeft(table, rank, mode, text', s + |out|) < StepsLeft(table, rank, mode, text, s)
  {
    hide Expand, Head, Taken;
    var rest := text[s..];
    HeadSplit(table, rank, MaxOf(rank), mode, rest);
    assert rest[k..] == text[s + k..] == text'[s + |out|..];
    assert text'[..s + |out|] == text[..s] + out;
    Regroup(text[..s], out, Expand(table, rank, MaxOf(rank), mode, rest[k..]).text);
  }

  /** A step that puts a replacement text in front of the rest, to be scanned next. */
  lemma {:induction false} ValuePut(table: seq<Entity>, rank: seq<nat>, mode: Mode, text: string, s: nat, goal: string,
                                    j: nat, text': string)
    requires Ranked(table, rank) && TableOk(table) && Scanned(table, rank, mode, text, s, goal) && s < |text|
    requires mode != CData && text[s] == '&'
    requires CharRef(text[s..]).None? && j == FirstMatch(table, text[s..], 0) < |table|
    requires text' == text[..s] + table[j].value + text[s + 1 + |table[j].name|..]
    ensures Scanned(table, rank, mode, text', s, goal)
    ensures StepsLeft(table, rank, mode, text', s) < StepsLeft(table, rank, mode, text, s)
  {
    hide Expand, Head, Taken, Below, TableOk, CharRef, MaxOf;
    var rest, k, v := text[s..], 1 + |table[j].name|, table[j].value;
    ValueInFront(table, rank, mode, rest, j);
    assert text'[s..] == v + rest[k..] && text'[..s] == text[..s];
  }

  /** With the replacement text in its place the rest expands to the same text, one step shorter. */
  lemma {:induction false} ValueInFront(table: seq<Entity>, rank: seq<nat>, mode: Mode, rest: string, j: nat)
    requires Ranked(table, rank) && TableOk(table) && Below(table, rank, rest, MaxOf(rank))
    requires mode != CData && rest != "" && rest[0] == '&'
    requires CharRef(rest).None? && j == FirstMatch(table, rest, 0) < |table|
    ensures 1 + |table[j].name| <= |rest|
    ensures var put := table[j].value + rest[1 + |table[j].name|..];
      && Below(table, rank, put, MaxOf(rank))
      && Expand(table, rank, MaxOf(rank), mode, put).text == Expand(table, rank, MaxOf(rank), mode, rest).text
      && Expand(table, rank, MaxOf(rank), mode, put).steps < Expand(table, rank, MaxOf(rank), mode, rest).steps
  {
    hide Expand, Head, Taken, Below, CharRef;
    assert Complete(table[j].value);
    hide TableOk;
    HeadSplit(table, rank, MaxOf(rank), mode, rest);
    HeadValue(table, rank, mode, rest, j);
    ExpandAppend(table, rank, MaxOf(rank), mode, table[j].value, rest[1 + |table[j].name|..]);
  }

  lemma {:induction false} HeadValue(table: seq<Entity>, rank: seq<nat>, mode: Mode, rest: string, j: nat)
    requires Ranked(table, rank) && Below(table, rank, rest, MaxOf(rank)) && mode != CData && rest != ""
    requires rest[0] == '&'
    requires CharRef(rest).None? && j == FirstMatch(table, rest, 0) < |table|
    ensures Below(table, rank, table[j].value, MaxOf(rank)) && Taken(table, mode, rest) == 1 + |table[j].name|
    ensures var value := Expand(table, rank, MaxOf(rank), mode, table[j].value);
      Head(table, rank, MaxOf(rank), mode, rest) == Expansion(value.text, 1 + value.steps)
  {
    assert Amp(rest, 0);
    AllBelow(table, rank, table[j].value);
    ExpandLevel(table, rank, rank[j], rank, MaxOf(rank), mode, table[j].value);
  }

  method SkipPlain(table: seq<Entity>, mode: Mode, text: string, s: nat, ghost rank: seq<nat>,
                   ghost goal: string) returns (s': nat)
    requires Ranked(table, rank) && Scanned(table, rank, mode, text, s, goal)
    ensures s <= s' && Scanned(table, rank, mode, text, s', goal)
    ensures StepsLeft(table, rank, mode, text, s') <= StepsLeft(table, rank, mode, text, s)
    ensures s' < |text| ==> text[s'] == '&' || IsSpace(text[s'])
  {
    s' := s;
    while s' < |text| && text[s'] != '&' && !IsSpace(text[s'])
      invariant s <= s' && Scanned(table, rank, mode, text, s', goal)
      invariant StepsLeft(table, rank, mode, text, s') <= StepsLeft(table, rank, mode, text, s)
    {
      OneChar(table, rank, mode, text, s', goal, text[s'], text);
      s' := s' + 1;
    }
  }

  /** A character that stands for itself, or a blank put for white space. */
  lemma {:induction false} OneChar(table: seq<Entity>, rank: seq<nat>, mode: Mode, text: string, s: nat, goal: string,
                                   c: char, text': string)
    requires Ranked(table, rank) && Scanned(table, rank, mode, text, s, goal) && s < |text|
    requires mode == CData || text[s] != '&' || (CharRef(text[s..]).None? && FirstMatch(table, text[s..], 0) == |table|)
    requires c == (if mode == Attribute && IsSpace(text[s]) then ' ' else text[s]) && text' == text[s := c]
    ensures Scanned(table, rank, mode, text', s + 1, goal)
    ensures StepsLeft(table, rank, mode, text', s + 1) < StepsLeft(table, rank, mode, text, s)
  {
    assert text[s..][0] == text[s];
    assert text' == text[..s] + [c] + text[s + 1..];
    HeadDone(table, rank, mode, text, s, goal, [c], text', 1);
  }

  /** No name starts with the mark of a character reference. */
  lemma {:induction false} NotAnEntity(table: seq<Entity>, rest: string)
    requires TableOk(table) && |rest| >= 2 && rest[1] == '#'
    ensures FirstMatch(table, rest, 0) == |table|
  {
    forall l {:trigger table[l]} | 0 <= l < |table|
      ensures !PrefixAt(rest, 1, table[l].name) { FirstDiffers(rest, 1, table[l].name); }
  }

  lemma {:induction false} DigitsShift(text: string, s: nat, i: nat, base: nat, acc: nat)
    requires s + i <= |text|
    ensures Digits(text, s + i, base, acc) == (Digits(text[s..], i, base, acc).0 + s, Digits(text[s..], i, base, acc).1)
    decreases |text| - i
  {
    if s + i < |text| && Digit(text[s + i], base).Some? {
      assert text[s..][i] == text[s + i];
      DigitsShift(text, s, i + 1, base, acc * base + Digit(text[s + i], base).value);
    }
  }

  lemma {:induction false} BlanksShift(text: string, s: nat, i: nat)
    requires s + i <= |text|
    ensures Blanks(text, s + i) == Blanks(text[s..], i) + s
    decreases |text| - i
  {
    if s + i < |text| && IsSpace(text[s + i]) {
      assert text[s..][i] == text[s + i];
      BlanksShift(text, s, i + 1);
    }
  }

  lemma {:induction false} NumberShift(text: string, s: nat, i: nat, base: nat)
    requires s + i <= |text|
    ensures Number(text, s + i, base) == (Number(text[s..], i, base).0 + s, Number(text[s..], i, base).1)
  {
    hide Digits, Blanks, Digit;
    BlanksShift(text, s, i);
    var rest, b := text[s..], Blanks(text[s..], i);
    assert forall k {:trigger rest[k]} :: 0 <= k < |rest| ==> rest[k] == text[s + k];
    var p: nat := if b < |rest| && IsSign(rest[b]) then b + 1 else b;
    assert HexStart(text, s + p, base) == HexStart(rest, p, base) + s;
    DigitsShift(text, s, NumberStart(rest, i, base), base, 0);
  }

  /** An ampersand and a hash mark: a character reference, or two plain characters. */
  method CharacterReference(table: seq<Entity>, mode: Mode, text: string, s: nat, ghost rank: seq<nat>,
                            ghost goal: string) returns (text': string, s': nat)
    requires Ranked(table, rank) && TableOk(table) && Scanned(table, rank, mode, text, s, goal) && mode != CData
    requires PrefixAt(text, s, "&#")
    ensures Scanned(table, rank, mode, text', s', goal)
    ensures StepsLeft(table, rank, mode, text', s') < StepsLeft(table, rank, mode, text, s)
  {
    hide Expand, Number, Ranked, TableOk, Scanned, StepsLeft, FirstMatch;
    ghost var rest := text[s..];
    assert text[s..s + 2] == "&#" && text[s..s + 2][0] == rest[0] == text[s]
      && text[s..s + 2][1] == rest[1] == text[s + 1];
    NotAnEntity(table, rest);
    var hex := s + 2 < |text| && text[s + 2] == 'x';
    var e, c := StrToLong(text, if hex then s + 3 else s + 2, if hex then 16 else 10);
    NumberShift(text, s, if hex then 3 else 2, if hex then 16 else 10);
    if c == 0 || e == |text| || text[e] != ';' {
      assert CharRef(rest).None?;
      OneChar(table, rank, mode, text, s, goal, text[s], text);
      text', s' := text, s + 1;
    } else {
      assert CharRef(rest) == Some((c, e - s)) by { assert rest[e - s] == ';'; }
      text', s' := PutCharacter(table, mode, text, s, c, e, rank, goal);
    }
  }

  /** The bytes are written over the reference, and the text behind its semicolon is moved up. */
  method PutCharacter(table: seq<Entity>, mode: Mode, text: string, s: nat, c: int, ghost e: nat, ghost rank: seq<nat>,
                      ghost goal: string) returns (text': string, s': nat)
    requires Ranked(table, rank) && Scanned(table, rank, mode, text, s, goal) && mode != CData && s < |text| && s <= e
    requires CharRef(text[s..]) == Some((c, e - s))
    ensures Scanned(table, rank, mode, text', s', goal)
    ensures StepsLeft(table, rank, mode, text', s') < StepsLeft(table, rank, mode, text, s)
  {
    hide CharRef;
    ghost var rest := text[s..];
    BytesFit(rest);
    var bytes := WriteUtf8(c);
    text' := text[..s] + bytes + text[s + |bytes|..];
    s' := s + |bytes|;
    forall k | s' <= k < |text| ensures text'[k] == text[k] == rest[k - s] {}
    var semicolon := FindSemicolon(text', s', e);
    text' := text'[..s'] + text'[semicolon + 1..];
    assert text' == text[..s] + bytes + text[e + 1..];
    HeadDone(table, rank, mode, text, s, goal, bytes, text', e - s + 1);
  }

  /** A reference to an entity of the table: its text replaces it and is scanned next. */
  method EntityReference(table: seq<Entity>, mode: Mode, text: string, s: nat, ghost rank: seq<nat>,
                         ghost goal: string) returns (text': string, s': nat)
    requires Ranked(table, rank) && TableOk(table) && Scanned(table, rank, mode, text, s, goal) && mode != CData
    requires s < |text| && text[s] == '&'
    requires CharRef(text[s..]).None?
    ensures Scanned(table, rank, mode, text', s', goal)
    ensures StepsLeft(table, rank, mode, text', s') < StepsLeft(table, rank, mode, text, s)
  {
    hide Expand, CharRef, Ranked, TableOk, Scanned, StepsLeft;
    var b := FindEntity(table, text, s);
    SuffixMatch(table, text, s, 0, 0);
    if b < |table| {
      text', s' := PutEntity(table, mode, text, s, b, rank, goal);
    } else {
      OneChar(table, rank, mode, text, s, goal, text[s], text);
      text', s' := text, s + 1;
    }
  }

  method PutEntity(table: seq<Entity>, mode: Mode, text: string, s: nat, b: nat, ghost rank: seq<nat>,
                   ghost goal: string) returns (text': string, s': nat)
    requires Ranked(table, rank) && TableOk(table) && Scanned(table, rank, mode, text, s, goal) && mode != CData
    requires s < |text| && text[s] == '&'
    requires CharRef(text[s..]).None? && b == FirstMatch(table, text[s..], 0) < |table|
    ensures Scanned(table, rank, mode, text', s', goal)
    ensures StepsLeft(table, rank, mode, text', s') < StepsLeft(table, rank, mode, text, s)
  {
    hide Expand;
    ghost var name := table[b].name;
    SuffixPrefix(text, s, 1, name);
    assert forall i :: 0 <= i < |name| ==> text[s + 1 + i] == text[s + 1..s + 1 + |name|][i] == name[i];
    var e := FindSemicolon(text, s, s + |name|);
    text' := text[..s] + table[b].value + text[e + 1..];
    s' := s;
    ValuePut(table, rank, mode, text, s, goal, b, text');
  }

  /** One turn of the scanning loop, at an ampersand or at white space. */
  method Turn(table: seq<Entity>, mode: Mode, text: string, s: nat, ghost rank: seq<nat>,
              ghost goal: string) returns (text': string, s': nat)
    requires Ranked(table, rank) && TableOk(table) && Scanned(table, rank, mode, text, s, goal) && s < |text|
    requires (text[s] == '&' || IsSpace(text[s]))
    ensures Scanned(table, rank, mode, text', s', goal)
    ensures StepsLeft(table, rank, mode, text', s') < StepsLeft(table, rank, mode, text, s)
  {
    if mode != CData && PrefixAt(text, s, "&#") {
      text', s' := CharacterReference(table, mode, text, s, rank, goal);
    } else if mode != CData && text[s] == '&' {
      NoMark(text, s);
      text', s' := EntityReference(table, mode, text, s, rank, goal);
    } else if mode == Attribute && IsSpace(text[s]) {
      OneChar(table, rank, mode, text, s, goal, ' ', text[s := ' ']);
      text', s' := text[s := ' '], s + 1;
    } else {
      OneChar(table, rank, mode, text, s, goal, text[s], text);
      text', s' := text, s + 1;
    }
  }

  lemma {:induction false} NoMark(text: string, s: nat)
    requires s < |text| && text[s] == '&' && !PrefixAt(text, s, "&#")
    ensures CharRef(text[s..]).None?
  {
    assert "&#" == ['&', '#'];
    assert s + 2 <= |text| ==> text[s..s + 2] == [text[s], text[s + 1]];
  }

  /** ezxml_decode. On a table without cycles the decoding ends and leaves the text, its line endings normalized, with
      every reference replaced; only the first loop can leave the text, and it does exactly when the text overruns. */
  method Decode(s0: string, table: seq<Entity>, mode: Mode, ghost rank: seq<nat>) returns (text: string, inside: bool)
    requires Ranked(table, rank) && TableOk(table)
    ensures inside <==> !Overruns(UpToNul(s0))
    ensures Below(table, rank, Unix(UpToNul(s0)), MaxOf(rank))
    ensures inside ==> text == Expand(table, rank, MaxOf(rank), mode, Unix(UpToNul(s0))).text
  {
    hide Expand, Unix, Overruns;
    var u := UpToNul(s0);
    var buf := new char[|u| + 1](i requires 0 <= i <= |u| => if i < |u| then u[i] else '\0');
    assert buf[..|u|] == u;
    text := "";
    inside := NormalizeLineEndings(buf, u);
    AllBelow(table, rank, Unix(u));
    if inside {
      var n := StringLength(buf, |Unix(u)|);
      text := Scan(buf[..n], table, mode, rank);
    }
  }

  /** The second loop. */
  method Scan(unix: string, table: seq<Entity>, mode: Mode, ghost rank: seq<nat>) returns (text: string)
    requires Ranked(table, rank) && TableOk(table) && Below(table, rank, unix, MaxOf(rank))
    ensures text == Expand(table, rank, MaxOf(rank), mode, unix).text
  {
    text := unix;
    ghost var goal := Expand(table, rank, MaxOf(rank), mode, unix).text;
    var s: nat := 0;
    assert text[0..] == text && text[..0] == "" && "" + goal == goal;
    s := SkipPlain(table, mode, text, s, rank, goal);
    while s < |text|
      invariant Scanned(table, rank, mode, text, s, goal) && (s < |text| ==> text[s] == '&' || IsSpace(text[s]))
      decreases StepsLeft(table, rank, mode, text, s)
    {
      text, s := Turn(table, mode, text, s, rank, goal);
      s := SkipPlain(table, mode, text, s, rank, goal);
    }
    assert text[s..] == "" && text[..s] == text;
  }
}
