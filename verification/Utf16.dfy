/** ezxml_str2utf8: a UTF-16 text with a byte order mark becomes UTF-8. */
module Utf16 {
  import opened Wrappers
  import opened Bits
  import opened EntityDecode
  import opened EntityScanner

  // ----- the standards -----

  /** A Unicode scalar value. */
  predicate Scalar(c: nat) {
    c < 0xD800 || 0xE000 <= c <= 0x10FFFF
  }

  function Unit(u: nat, be: bool): (r: string)
    ensures |r| == 2
  {
    if be then [Byte(u / 256), Byte(u)] else [Byte(u), Byte(u / 256)]
  }

  /** UTF-16, section 2.1 of RFC 2781. */
  function Encode16(cps: seq<nat>, be: bool): string {
    if cps == [] then ""
    else
      var c := cps[0];
      (if c < 0x10000 then Unit(c, be)
        else Unit(0xD800 + (c - 0x10000) / 0x400, be) + Unit(0xDC00 + (c - 0x10000) % 0x400, be))
        + Encode16(cps[1..], be)
  }

  function Mark(be: bool): string {
    if be then [0xFE as char, 0xFF as char] else [0xFF as char, 0xFE as char]
  }

  predicate Tail(c: char) { 0x80 <= c as int <= 0xBF }

  function Low6(c: char): nat { c as int % 64 }

  /** The first character of a UTF-8 text and its length, section 3 of RFC 3629: shortest form, no surrogates,
      nothing above 10FFFF. */
  function First8(s: string): Option<(nat, nat)> {
    if s == "" then None
    else
      var h := s[0] as int;
      if h < 0x80 then Some((h, 1))
      else if 0xC0 <= h <= 0xDF && |s| >= 2 && Tail(s[1]) then
        var c := (h - 0xC0) * 64 + Low6(s[1]);
        if c >= 0x80 then Some((c, 2)) else None
      else if 0xE0 <= h <= 0xEF && |s| >= 3 && Tail(s[1]) && Tail(s[2]) then
        var c := (h - 0xE0) * 4096 + Low6(s[1]) * 64 + Low6(s[2]);
        if c >= 0x800 && Scalar(c) then Some((c, 3)) else None
      else if 0xF0 <= h <= 0xF7 && |s| >= 4 && Tail(s[1]) && Tail(s[2]) && Tail(s[3]) then
        var c := (h - 0xF0) * 262144 + Low6(s[1]) * 4096 + Low6(s[2]) * 64 + Low6(s[3]);
        if c >= 0x10000 && Scalar(c) then Some((c, 4)) else None
      else None
  }

  /** UTF-8 read back. */
  function Decode8(s: string): Option<seq<nat>>
    decreases |s|
  {
    if s == "" then Some([])
    else
      match First8(s)
      case None => None
      case Some((c, n)) =>
        if n > |s| || n == 0 then None
        else
          match Decode8(s[n..])
          case None => None
          case Some(rest) => Some([c] + rest)
  }

  // ----- the byte length formula -----

  lemma {:induction false} BitsBelow(c: nat, k: nat)
    ensures c < Pow2(k) ==> BitCount(c) <= k
    ensures c >= Pow2(k) ==> BitCount(c) > k
    decreases k
  {
    if k > 0 { BitsBelow(c / 2, k - 1); }
  }

  lemma {:induction false} Powers()
    ensures Pow2(7) == 0x80 && Pow2(11) == 0x800 && Pow2(16) == 0x10000 && Pow2(21) == 0x200000
  {
    assert Pow2(3) == 8;
    assert Pow2(7) == 2 * Pow2(6) && Pow2(6) == 2 * Pow2(5) && Pow2(5) == 2 * Pow2(4) && Pow2(4) == 16;
    assert Pow2(11) == 2 * Pow2(10) && Pow2(10) == 2 * Pow2(9) && Pow2(9) == 2 * Pow2(8) && Pow2(8) == 2 * Pow2(7);
    assert Pow2(16) == 2 * Pow2(15) && Pow2(15) == 2 * Pow2(14) && Pow2(14) == 2 * Pow2(13)
      && Pow2(13) == 2 * Pow2(12) && Pow2(12) == 2 * Pow2(11);
    assert Pow2(21) == 2 * Pow2(20) && Pow2(20) == 2 * Pow2(19) && Pow2(19) == 2 * Pow2(18)
      && Pow2(18) == 2 * Pow2(17) && Pow2(17) == 2 * Pow2(16);
  }

  /** Two, three and four bytes exactly where RFC 3629 asks for them. */
  lemma {:induction false} LengthFormula(c: nat)
    requires 0x80 <= c < 0x200000
    ensures PayloadSize(c) == if c < 0x800 then 1 else if c < 0x10000 then 2 else 3
  {
    Powers();
    BitsBelow(c, 7);
    BitsBelow(c, 11);
    BitsBelow(c, 16);
    BitsBelow(c, 21);
  }

  lemma {:induction false} TwoBytes(c: nat)
    requires 0x80 <= c < 0x800
    ensures Utf8(c) == [(0xC0 + c / 64) as char, (0x80 + c % 64) as char]
  {
    hide PayloadSize;
    LengthFormula(c);
    assert Downshifted(c, 1) == c / 64 && Downshifted(c, 0) == c;
    assert Payload(c, 1) == [Byte(0x80 + c % 64)] + Payload(c, 0);
  }

  lemma {:induction false} ThreeBytes(c: nat)
    requires 0x800 <= c < 0x10000
    ensures Utf8(c) == [(0xE0 + c / 4096) as char, (0x80 + (c / 64) % 64) as char, (0x80 + c % 64) as char]
  {
    hide PayloadSize;
    LengthFormula(c);
    assert Downshifted(c, 2) == Downshifted(c / 64, 1) == (c / 64) / 64 == c / 4096 && Downshifted(c, 1) == c / 64
      && Downshifted(c, 0) == c;
    assert Payload(c, 1) == [Byte(0x80 + c % 64)] + Payload(c, 0);
    assert Payload(c, 2) == [Byte(0x80 + (c / 64) % 64)] + Payload(c, 1);
  }

  lemma {:induction false} FourBytes(c: nat)
    requires 0x10000 <= c < 0x200000
    ensures Utf8(c) == [(0xF0 + c / 262144) as char, (0x80 + (c / 4096) % 64) as char, (0x80 + (c / 64) % 64) as char,
      (0x80 + c % 64) as char]
  {
    hide PayloadSize, Byte, BitCount;
    LengthFormula(c);
    assert Downshifted(c, 2) == Downshifted(c / 64, 1) == (c / 64) / 64 == c / 4096 && Downshifted(c, 1) == c / 64
      && Downshifted(c, 0) == c;
    assert Downshifted(c, 3) == Downshifted(c / 64, 2) == Downshifted(c / 4096, 1) == (c / 4096) / 64 == c / 262144;
    assert Payload(c, 1) == [Byte(0x80 + c % 64)] + Payload(c, 0);
    assert Payload(c, 2) == [Byte(0x80 + (c / 64) % 64)] + Payload(c, 1);
    assert Payload(c, 3) == [Byte(0x80 + (c / 4096) % 64)] + Payload(c, 2);
  }

  lemma {:induction false} ReadTwo(s: string, c: nat)
    requires 0x80 <= c < 0x800 && |s| >= 2 && s[0] as int == 0xC0 + c / 64 && s[1] as int == 0x80 + c % 64
    ensures First8(s) == Some((c, 2))
  {
    assert Low6(s[1]) == c % 64;
  }

  lemma {:induction false} ReadThree(s: string, c: nat)
    requires 0x800 <= c < 0x10000 && Scalar(c) && |s| >= 3
    requires s[0] as int == 0xE0 + c / 4096 && s[1] as int == 0x80 + (c / 64) % 64 && s[2] as int == 0x80 + c % 64
    ensures First8(s) == Some((c, 3))
  {
    assert Low6(s[1]) == (c / 64) % 64 && Low6(s[2]) == c % 64;
    assert (c / 4096) * 4096 + ((c / 64) % 64) * 64 + c % 64 == c;
  }

  lemma {:induction false} FourParts(c: nat, x: nat, y: nat)
    requires 0x10000 <= c <= 0x10FFFF && x == c / 64 && y == c / 4096
    ensures c / 262144 <= 4 && (c / 262144) * 262144 + (y % 64) * 4096 + (x % 64) * 64 + c % 64 == c
  {
    assert y == x / 64 && c / 262144 == y / 64;
  }

  lemma {:induction false} AreTails(s: string, c: nat)
    requires |s| >= 4 && s[1] as int == 0x80 + (c / 4096) % 64
    requires s[2] as int == 0x80 + (c / 64) % 64 && s[3] as int == 0x80 + c % 64
    ensures Tail(s[1]) && Tail(s[2]) && Tail(s[3])
  {
  }

  lemma {:induction false} ReadFour(s: string, c: nat)
    requires 0x10000 <= c <= 0x10FFFF && |s| >= 4
    requires s[0] as int == 0xF0 + c / 262144 && s[1] as int == 0x80 + (c / 4096) % 64
    requires s[2] as int == 0x80 + (c / 64) % 64 && s[3] as int == 0x80 + c % 64
    ensures First8(s) == Some((c, 4))
  {
    hide Tail;
    FourParts(c, c / 64, c / 4096);
    assert Low6(s[1]) == (c / 4096) % 64 && Low6(s[2]) == (c / 64) % 64 && Low6(s[3]) == c % 64;
    AreTails(s, c);
  }

  /** What the converter writes for a scalar value is read back as that value. */
  lemma {:induction false} ReadBack(c: nat, rest: string)
    requires Scalar(c)
    ensures First8(Utf8(c) + rest) == Some((c, |Utf8(c)|))
  {
    hide First8;
    if c < 0x80 {
      ReadOne(Utf8(c) + rest, c);
    } else if c < 0x800 {
      TwoBytes(c);
      ReadTwo(Utf8(c) + rest, c);
    } else if c < 0x10000 {
      ThreeBytes(c);
      ReadThree(Utf8(c) + rest, c);
    } else {
      FourBytes(c);
      ReadFour(Utf8(c) + rest, c);
    }
  }

  lemma {:induction false} ReadOne(s: string, c: nat)
    requires c < 0x80 && s != "" && s[0] as int == c
    ensures First8(s) == Some((c, 1))
  {
  }

  // ----- the converter -----

  /** The 16 bits at byte `i`. */
  function UnitAt(s: string, be: bool, i: nat): nat
    requires i + 1 < |s|
  {
    if be then (s[i] as int % 256) * 256 + s[i + 1] as int % 256 else (s[i + 1] as int % 256) * 256 + s[i] as int % 256
  }

  /** What the loop makes of the bytes from `i` on. */
  function Converted(s: string, be: bool, i: nat): string
    decreases |s| - i
  {
    if i + 1 >= |s| then ""
    else
      var c := UnitAt(s, be, i);
      if 0xD800 <= c <= 0xDFFF then
        if i + 3 < |s| then Utf8((c % 0x400) * 0x400 + UnitAt(s, be, i + 2) % 0x400 + 0x10000) + Converted(s, be, i + 4)
        else Utf8(c)
      else Utf8(c) + Converted(s, be, i + 2)
  }

  /** Texts that do not start with a byte order mark are left alone. */
  method StrToUtf8(s: string) returns (r: Option<string>)
    requires s != ""
    ensures r == if s[0] as int == 0xFE then Some(Converted(s, true, 2))
      else if s[0] as int == 0xFF then Some(Converted(s, false, 2)) else None
  {
    hide UnitAt, Utf8;
    if s[0] as int != 0xFE && s[0] as int != 0xFF { return None; }
    var be := s[0] as int == 0xFE;
    var u, sl: nat := "", 2;
    assert "" + Converted(s, be, 2) == Converted(s, be, 2);
    while sl + 1 < |s|
      invariant u + Converted(s, be, sl) == Converted(s, be, 2)
      decreases |s| - sl
    {
      var c := UnitAt(s, be, sl);
      if 0xD800 <= c <= 0xDFFF {
        sl := sl + 2;
        if sl + 1 < |s| {
          var d := UnitAt(s, be, sl);
          c := (c % 0x400) * 0x400 + d % 0x400 + 0x10000;
        } else {
          assert Converted(s, be, sl + 2) == "" && Utf8(c) + "" == Utf8(c);
        }
      }
      var bytes := WriteUtf8(c);
      Regroup(u, bytes, Converted(s, be, sl + 2));
      u := u + bytes;
      sl := sl + 2;
    }
    assert u + "" == u;
    r := Some(u);
  }

  lemma {:induction false} UnitRead(s: string, be: bool, i: nat, u: nat)
    requires u < 0x10000 && i + 1 < |s| && s[i..i + 2] == Unit(u, be)
    ensures UnitAt(s, be, i) == u
  {
    assert s[i] == s[i..i + 2][0] && s[i + 1] == s[i..i + 2][1];
    assert (u / 256) % 256 == u / 256;
  }

  function Utf8All(cps: seq<nat>): string {
    if cps == [] then "" else Utf8(cps[0]) + Utf8All(cps[1..])
  }

  lemma {:induction false} ConvertedIs(s: string, be: bool, i: nat, cps: seq<nat>)
    requires i <= |s| && s[i..] == Encode16(cps, be) && forall k :: 0 <= k < |cps| ==> Scalar(cps[k])
    ensures Converted(s, be, i) == Utf8All(cps)
    decreases |cps|
  {
    hide Utf8, UnitAt;
    if cps != [] {
      var c, rest := cps[0], Encode16(cps[1..], be);
      if c < 0x10000 {
        assert s[i..] == Unit(c, be) + rest;
        assert s[i..i + 2] == s[i..][..2] == Unit(c, be) && s[i + 2..] == s[i..][2..] == rest;
        UnitRead(s, be, i, c);
        ConvertedIs(s, be, i + 2, cps[1..]);
      } else {
        Surrogates(s, be, i, c, rest);
        ConvertedIs(s, be, i + 4, cps[1..]);
      }
    }
  }

  lemma {:induction false} Surrogates(s: string, be: bool, i: nat, c: nat, rest: string)
    requires 0x10000 <= c <= 0x10FFFF && i <= |s|
    requires s[i..] == (Unit(0xD800 + (c - 0x10000) / 0x400, be) + Unit(0xDC00 + (c - 0x10000) % 0x400, be)) + rest
    ensures i + 4 <= |s| && s[i + 4..] == rest
    ensures 0xD800 <= UnitAt(s, be, i) <= 0xDFFF
    ensures (UnitAt(s, be, i) % 0x400) * 0x400 + UnitAt(s, be, i + 2) % 0x400 + 0x10000 == c
  {
    hide UnitAt;
    var h, l := 0xD800 + (c - 0x10000) / 0x400, 0xDC00 + (c - 0x10000) % 0x400;
    assert s[i..i + 2] == s[i..][..2] == Unit(h, be) && s[i + 2..i + 4] == s[i..][2..4] == Unit(l, be)
      && s[i + 4..] == s[i..][4..];
    UnitRead(s, be, i, h);
    UnitRead(s, be, i + 2, l);
  }

  lemma {:induction false} DecodesBack(cps: seq<nat>)
    requires forall k :: 0 <= k < |cps| ==> Scalar(cps[k])
    ensures Decode8(Utf8All(cps)) == Some(cps)
  {
    if cps != [] {
      var head, rest := Utf8(cps[0]), Utf8All(cps[1..]);
      ReadBack(cps[0], rest);
      DecodesBack(cps[1..]);
      assert (head + rest)[|head|..] == rest;
      assert [cps[0]] + cps[1..] == cps;
    }
  }

  /** Every well-formed UTF-16 text, of either byte order, comes out as UTF-8 for the same characters. */
  lemma {:induction false} WellFormedConverts(cps: seq<nat>, be: bool)
    requires forall k :: 0 <= k < |cps| ==> Scalar(cps[k])
    ensures Decode8(Converted(Mark(be) + Encode16(cps, be), be, 2)) == Some(cps)
  {
    var s := Mark(be) + Encode16(cps, be);
    assert s[2..] == Encode16(cps, be);
    ConvertedIs(s, be, 2, cps);
    DecodesBack(cps);
  }
}
