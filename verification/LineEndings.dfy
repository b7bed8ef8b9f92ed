/** The first loop of ezxml_decode, on the bytes of the text and its terminator. */
module LineEndings {

  /** The text up to its terminator. */
  function UpToNul(s: string): (r: string)
    ensures |r| <= |s| && r == s[..|r|] && (forall k :: 0 <= k < |r| ==> r[k] != '\0') && (|r| < |s| ==> s[|r|] == '\0')
  {
    if s == "" || s[0] == '\0' then "" else [s[0]] + UpToNul(s[1..])
  }

  /** A carriage return, with the line feed behind it if there is one, is one line feed. */
  function Unix(s: string): string {
    if s == "" then ""
    else if s[0] == '\r' then "\n" + Unix(if |s| > 1 && s[1] == '\n' then s[2..] else s[1..])
    else [s[0]] + Unix(s[1..])
  }

  predicate PairAt(s: string, k: nat) {
    k + 1 < |s| && s[k] == '\r' && s[k + 1] == '\n'
  }

  /** Somewhere a line feed follows a return. */
  ghost predicate HasPair(s: string) {
    exists k: nat {:trigger PairAt(s, k)} :: PairAt(s, k)
  }

  predicate EndsInReturn(s: string) {
    s != "" && s[|s| - 1] == '\r'
  }

  /** The texts whose terminator the loop steps over. A removed line feed leaves a second terminator behind the first
      one, and one of them is enough to stop it. */
  ghost predicate Overruns(s: string) {
    EndsInReturn(s) && !HasPair(s)
  }

  lemma {:induction false} UnixPlain(s: string)
    requires forall k :: 0 <= k < |s| ==> s[k] != '\r'
    ensures Unix(s) == s && !Overruns(s)
  {
    if s != "" { UnixPlain(s[1..]); }
  }

  // ----- the buffer -----

  /** A text, its terminator, and nothing but terminators behind it. */
  ghost predicate Buffered(buf: seq<char>, len: nat) {
    && len < |buf| && (forall k {:trigger buf[k]} :: 0 <= k < len ==> buf[k] != '\0')
    && forall k {:trigger buf[k]} :: len <= k < |buf| ==> buf[k] == '\0'
  }

  /** What is known at position `s`, with `rest` still to come and `gone` line feeds removed. */
  ghost predicate Normalizing(s0: string, done: string, rest: string, gone: nat) {
    && done + Unix(rest) == Unix(s0)
    && (HasPair(s0) <==> gone > 0 || HasPair(rest))
    && (rest != "" ==> (EndsInReturn(s0) <==> EndsInReturn(rest)))
  }

  lemma {:induction false} PairInFront(c: char, rest: string)
    ensures HasPair([c] + rest) <==> HasPair(rest) || (c == '\r' && rest != "" && rest[0] == '\n')
  {
    var s := [c] + rest;
    if HasPair(s) {
      var k: nat :| PairAt(s, k);
      if k > 0 { assert PairAt(rest, k - 1); }
    }
    if HasPair(rest) {
      var k: nat :| PairAt(rest, k);
      assert PairAt(s, k + 1);
    }
    if c == '\r' && rest != "" && rest[0] == '\n' { assert PairAt(s, 0); }
  }

  /** A return, alone or with its line feed, becomes a line feed. */
  lemma {:induction false} ReturnStep(s0: string, done: string, rest: string, gone: nat)
    requires Normalizing(s0, done, rest, gone) && rest != "" && rest[0] == '\r'
    ensures var pair := |rest| > 1 && rest[1] == '\n'; var next := if pair then rest[2..] else rest[1..];
      Normalizing(s0, done + "\n", next, gone + if pair then 1 else 0)
    ensures var pair := |rest| > 1 && rest[1] == '\n'; rest[if pair then 2 else 1..] == "" ==> EndsInReturn(s0) || pair
  {
    assert rest == [rest[0]] + rest[1..];
    PairInFront(rest[0], rest[1..]);
    var pair := |rest| > 1 && rest[1] == '\n';
    var next := if pair then rest[2..] else rest[1..];
    assert (done + "\n") + Unix(next) == done + Unix(rest);
  }

  /** Any other character stays. */
  lemma {:induction false} PlainStep(s0: string, done: string, rest: string, gone: nat)
    requires Normalizing(s0, done, rest, gone) && rest != "" && rest[0] != '\r'
    ensures Normalizing(s0, done + [rest[0]], rest[1..], gone) && (rest[1..] == "" ==> !EndsInReturn(s0))
  {
    assert rest == [rest[0]] + rest[1..];
    PairInFront(rest[0], rest[1..]);
    assert (done + [rest[0]]) + Unix(rest[1..]) == done + Unix(rest);
  }

  /** memmove(s, s + 1, strlen(s)): the rest of the text and its terminator move down by one place; the old terminator
      stays where it is. */
  method MoveDown(buf: array<char>, s: nat, len: nat)
    requires Buffered(buf[..], len) && s < len
    modifies buf
    ensures Buffered(buf[..], len - 1) && buf[..len - 1] == old(buf[..s]) + old(buf[s + 1..len])
  {
    for i := s to len
      invariant forall k {:trigger buf[k]} :: 0 <= k < buf.Length ==>
        buf[k] == if s <= k < i then old(buf[k + 1]) else old(buf[k])
    {
      buf[i] := buf[i + 1];
    }
    assert forall k {:trigger old(buf[k])} :: 0 <= k < buf.Length ==> old(buf[..])[k] == old(buf[k]);
  }

  /** strlen of the whole buffer. */
  method StringLength(buf: array<char>, ghost len: nat) returns (n: nat)
    requires Buffered(buf[..], len)
    ensures n == len
  {
    n := 0;
    while buf[n] != '\0'
      invariant n <= len
      decreases len - n
    {
      assert buf[..][n] != '\0';
      n := n + 1;
    }
    assert buf[..][n] == '\0';
  }

  /** The buffer at position `s`: what is before it, what is to come, and how many terminators are spare. */
  ghost predicate Scanning(text: string, buf: seq<char>, s: nat, len: nat) {
    Buffered(buf, len) && s <= len && Normalizing(text, buf[..s], buf[s..len], |buf| - 1 - len)
  }

  lemma {:induction false} AtReturn(text: string, buf: seq<char>, s: nat, len: nat)
    requires Scanning(text, buf, s, len) && buf[s] == '\r'
    ensures s < len && buf[s..len][0] == '\r' && buf[s..len][1..] == buf[s + 1..len]
    ensures |buf[s..len]| > 1 && buf[s..len][1] == '\n' <==> buf[s + 1] == '\n'
    ensures buf[s + 1] == '\n' ==> s + 1 < len && buf[s..len][2..] == buf[s + 2..len]
  {
    assert buf[len] == '\0';
  }

  /** One return; `len'` is the length of the text afterwards. */
  method OneReturn(buf: array<char>, s: nat, ghost len: nat, ghost text: string) returns (ghost len': nat)
    requires Scanning(text, buf[..], s, len) && buf[s] == '\r'
    modifies buf
    ensures s < len && len' - s <= len - s && s + 1 <= len'
    ensures Scanning(text, buf[..], s + 1, len')
    ensures s + 1 == len' ==> EndsInReturn(text) || len' < buf.Length - 1
  {
    hide Normalizing, EndsInReturn, HasPair;
    ghost var old0, done, rest, gone := buf[..], buf[..s], buf[s..len], buf.Length - 1 - len;
    AtReturn(text, old0, s, len);
    assert old0[..s] == done && old0[s..len] == rest;
    ReturnStep(text, done, rest, gone);
    len' := len;
    buf[s] := '\n';
    if buf[s + 1] == '\n' {
      assert Buffered(buf[..], len);
      var n := StringLength(buf, len);
      ghost var buf1 := buf[..];
      MoveDown(buf, s + 1, n);
      len' := len - 1;
      assert buf[..s + 1] == buf[..len'][..s + 1] == done + "\n";
      assert buf[s + 1..len'] == buf[..len'][s + 1..] == buf1[s + 2..len] == old0[s + 2..len];
    } else {
      assert buf[..s + 1] == done + "\n" && buf[s + 1..len] == old0[s + 1..len];
    }
    assert buf[..][..s + 1] == buf[..s + 1] && buf[..][s + 1..len'] == buf[s + 1..len'];
  }

  /** The inner loop: the returns at position `s`, one after the other. */
  method Returns(buf: array<char>, s0: nat, ghost len0: nat, ghost text: string)
    returns (s: nat, ghost len: nat)
    requires Scanning(text, buf[..], s0, len0) && s0 < len0
    modifies buf
    ensures Scanning(text, buf[..], s, len) && len - s <= len0 - s0
    ensures s < buf.Length && buf[..][s] != '\r'
    ensures s == len ==> EndsInReturn(text) || len < buf.Length - 1
  {
    hide Normalizing, EndsInReturn, HasPair;
    s, len := s0, len0;
    while buf[s] == '\r'
      invariant Scanning(text, buf[..], s, len) && len - s <= len0 - s0
      invariant s == len ==> EndsInReturn(text) || len < buf.Length - 1
      decreases len - s
    {
      len := OneReturn(buf, s, len, text);
      s := s + 1;
    }
  }

  /** How the first loop stands when its position is `s`: within the text or at its end, or one place behind it. */
  ghost predicate Position(text: string, buf: seq<char>, s: nat, len: nat) {
    if s <= len then Scanning(text, buf, s, len) && (s == len ==> !Overruns(text))
    else
      && s == len + 1 && Buffered(buf, len) && buf[..len] == Unix(text)
      && (len < |buf| - 1 <==> !Overruns(text))
  }

  lemma {:induction false} AfterReturns(text: string, buf: seq<char>, s: nat, len: nat)
    requires Scanning(text, buf, s, len) && buf[s] != '\r'
    requires s == len ==> EndsInReturn(text) || len < |buf| - 1
    ensures Position(text, buf, s + 1, len)
  {
    if s < len {
      PlainStep(text, buf[..s], buf[s..len], |buf| - 1 - len);
      assert buf[..s] + [buf[s]] == buf[..s + 1] && buf[s..len][1..] == buf[s + 1..len];
    } else {
      NothingLeft(text, buf, len);
      assert !HasPair("") by { assert forall k: nat {:trigger PairAt("", k)} :: !PairAt("", k); }
    }
  }

  lemma {:induction false} NothingLeft(text: string, buf: seq<char>, len: nat)
    requires Scanning(text, buf, len, len)
    ensures buf[..len] == Unix(text)
  {
    assert buf[len..len] == "" && buf[..len] + "" == buf[..len];
  }

  /** The first loop. It leaves the buffer exactly on the texts that overrun; otherwise the buffer holds the text with
      every line ending normalized, and terminators behind it. */
  method NormalizeLineEndings(buf: array<char>, ghost text: string) returns (inside: bool)
    requires buf.Length == |text| + 1 && buf[..|text|] == text && Buffered(buf[..], |text|)
    modifies buf
    ensures inside <==> !Overruns(text)
    ensures Buffered(buf[..], |Unix(text)|) && buf[..|Unix(text)|] == Unix(text)
  {
    hide Scanning, Overruns, Unix, Position;
    var s: nat := 0;
    ghost var len: nat := |text|;
    LoopStart(text, buf[..]);
    while s < buf.Length && buf[s] != '\0'
      invariant Position(text, buf[..], s, len)
      decreases if s > len then 0 else 1 + len - s
    {
      PositionInside(text, buf[..], s, len);
      s, len := Returns(buf, s, len, text);
      AfterReturns(text, buf[..], s, len);
      s := s + 1;
    }
    inside := s < buf.Length;
    PositionDone(text, buf[..], s, len);
  }

  lemma {:induction false} LoopStart(text: string, buf: seq<char>)
    requires |buf| == |text| + 1 && buf[..|text|] == text && Buffered(buf, |text|)
    ensures Position(text, buf, 0, |text|)
  {
    assert buf[..0] == "" && buf[0..|text|] == text && "" + Unix(text) == Unix(text);
  }

  lemma {:induction false} PositionInside(text: string, buf: seq<char>, s: nat, len: nat)
    requires Position(text, buf, s, len) && s < |buf| && buf[s] != '\0'
    ensures s < len && Scanning(text, buf, s, len)
  {
  }

  lemma {:induction false} PositionDone(text: string, buf: seq<char>, s: nat, len: nat)
    requires Position(text, buf, s, len) && (s < |buf| ==> buf[s] == '\0')
    ensures s < |buf| <==> !Overruns(text)
    ensures Buffered(buf, |Unix(text)|) && buf[..|Unix(text)|] == Unix(text)
  {
    if s <= len { NothingLeft(text, buf, len); }
  }

  /** `<a>a` followed by a return and `</a>` hands over a text that overruns. With a line feed behind the return it does
      not, and neither does a text that ends in a return but has a pair further up. */
  lemma {:induction false} StepsOverTheTerminator()
    ensures Overruns("a\r") && !Overruns("a\r\n") && !Overruns("x\r\ny\r")
  {
    assert PairAt("x\r\ny\r", 1);
  }
}
