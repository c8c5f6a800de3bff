/** The incremental UTF-8 decoder of the token loop (`take_valid_utf8` and the loop that feeds it),
    over RFC 3629. */
module Utf8Stream {
  import opened Text
  import opened Subsequence

  // ---------------------------------------------------------------- one character

  /** What stands at the front of a byte string: a whole character of RFC 3629 section 4, the first
      bytes of one (the input ends too early), or bytes that start none. */
  datatype Front = Char(len: nat) | Cut | Bad(len: nat)

  predicate IsTail(b: Byte) { 0x80 <= b <= 0xBF }

  function Width(b: Byte): nat {
    if b <= 0x7F then 1 else if 0xC2 <= b <= 0xDF then 2
    else if 0xE0 <= b <= 0xEF then 3 else if 0xF0 <= b <= 0xF4 then 4 else 0
  }

  predicate GoodSecond(b0: Byte, b1: Byte) {
    if b0 == 0xE0 then 0xA0 <= b1 <= 0xBF
    else if b0 == 0xED then 0x80 <= b1 <= 0x9F
    else if b0 == 0xF0 then 0x90 <= b1 <= 0xBF
    else if b0 == 0xF4 then 0x80 <= b1 <= 0x8F
    else IsTail(b1)
  }

  /** `std::str::from_utf8` looking at the next character; `Bad` carries its `error_len`. */
  function Look(s: seq<Byte>): Front
    requires s != []
  {
    var w := Width(s[0]);
    if w == 0 then Bad(1)
    else if w == 1 then Char(1)
    else if |s| < 2 then Cut
    else if !GoodSecond(s[0], s[1]) then Bad(1)
    else if w == 2 then Char(2)
    else if |s| < 3 then Cut
    else if !IsTail(s[2]) then Bad(2)
    else if w == 3 then Char(3)
    else if |s| < 4 then Cut
    else if !IsTail(s[3]) then Bad(3)
    else Char(4)
  }

  lemma LookBounds(s: seq<Byte>)
    requires s != []
    ensures match Look(s)
            case Char(n) => 1 <= n <= 4 && n <= |s|
            case Cut => |s| <= 3
            case Bad(n) => 1 <= n <= 3 && n <= |s|
  {
  }

  /** More input only ever decides an early end. */
  lemma LookStable(s: seq<Byte>, more: seq<Byte>)
    requires s != [] && !Look(s).Cut?
    ensures Look(s + more) == Look(s)
  {
  }

  /** A Unicode scalar value. */
  predicate Scalar(cp: int) { (0 <= cp <= 0xD7FF) || (0xE000 <= cp <= 0x10FFFF) }

  /** The bytes of a scalar value: RFC 3629 section 3. */
  function Utf8(cp: int): seq<Byte>
    requires Scalar(cp)
  {
    if cp <= 0x7F then [cp]
    else if cp <= 0x7FF then [0xC0 + cp / 64, 0x80 + cp % 64]
    else if cp <= 0xFFFF then [0xE0 + cp / 4096, 0x80 + cp / 64 % 64, 0x80 + cp % 64]
    else [0xF0 + cp / 262144, 0x80 + cp / 4096 % 64, 0x80 + cp / 64 % 64, 0x80 + cp % 64]
  }

  /** What encodes a scalar value is recognised whole, whatever follows it. */
  lemma Utf8Looks(cp: int, more: seq<Byte>)
    requires Scalar(cp)
    ensures Look(Utf8(cp) + more) == Char(|Utf8(cp)|)
  {
    var s := Utf8(cp);
    if 0x7F < cp <= 0x7FF {
      TwoBytes(cp);
    } else if 0x7FF < cp <= 0xFFFF {
      ThreeBytes(cp);
    } else if cp > 0xFFFF {
      FourBytes(cp);
    }
    LookStable(s, more);
  }

  lemma TwoBytes(cp: int)
    requires 0x7F < cp <= 0x7FF
    ensures Look(Utf8(cp)) == Char(2)
  {
    assert 2 <= cp / 64 <= 31;
  }

  lemma ThreeBytes(cp: int)
    requires 0x7FF < cp <= 0xFFFF && Scalar(cp)
    ensures Look(Utf8(cp)) == Char(3)
  {
    var a, b := cp / 4096, cp / 64 % 64;
    assert cp / 64 == a * 64 + b;
    assert cp == a * 4096 + b * 64 + cp % 64;
    assert a == 0 ==> b >= 32;
    assert a == 13 ==> b < 32;
  }

  lemma FourBytes(cp: int)
    requires 0xFFFF < cp <= 0x10FFFF
    ensures Look(Utf8(cp)) == Char(4)
  {
    var a, b := cp / 262144, cp / 4096 % 64;
    assert cp / 4096 == a * 64 + b;
    assert a == 0 ==> b >= 16;
    assert a == 4 ==> b < 16;
  }

  /** What is recognised as a character encodes a scalar value. */
  lemma LookEncodes(s: seq<Byte>) returns (cp: int)
    requires s != [] && Look(s).Char?
    ensures Look(s).len <= |s| && Scalar(cp) && s[..Look(s).len] == Utf8(cp)
  {
    LookBounds(s);
    match Look(s).len {
      case 1 => cp := s[0];
      case 2 =>
        var a: int, b: int := s[0], s[1];
        cp := (a - 0xC0) * 64 + (b - 0x80);
        assert cp / 64 == a - 0xC0 && cp % 64 == b - 0x80;
      case 3 =>
        var a: int, b: int, c: int := s[0], s[1], s[2];
        cp := (a - 0xE0) * 4096 + (b - 0x80) * 64 + (c - 0x80);
        Unpack3(a - 0xE0, b - 0x80, c - 0x80);
      case _ =>
        var a: int, b: int, c: int, d: int := s[0], s[1], s[2], s[3];
        cp := (a - 0xF0) * 262144 + (b - 0x80) * 4096 + (c - 0x80) * 64 + (d - 0x80);
        Unpack4(a - 0xF0, b - 0x80, c - 0x80, d - 0x80);
    }
  }

  lemma Unpack3(a: int, b: int, c: int)
    requires 0 <= a && 0 <= b < 64 && 0 <= c < 64
    ensures var cp := a * 4096 + b * 64 + c; cp / 4096 == a && cp / 64 % 64 == b && cp % 64 == c
  {
    var cp := a * 4096 + b * 64 + c;
    assert cp / 64 == a * 64 + b;
  }

  lemma Unpack4(a: int, b: int, c: int, d: int)
    requires 0 <= a && 0 <= b < 64 && 0 <= c < 64 && 0 <= d < 64
    ensures var cp := a * 262144 + b * 4096 + c * 64 + d;
            cp / 262144 == a && cp / 4096 % 64 == b && cp / 64 % 64 == c && cp % 64 == d
  {
    Unpack3(a * 64 + b, c, d);
    var cp := a * 262144 + b * 4096 + c * 64 + d;
    assert cp / 4096 == a * 64 + b;
  }

  /** Characters are exactly the encodings of scalar values. */
  lemma CharIff(s: seq<Byte>, n: nat)
    requires s != []
    ensures Look(s) == Char(n) <==> n <= |s| && exists cp: int :: Scalar(cp) && s[..n] == Utf8(cp)
  {
    hide Look, Utf8;
    if Look(s) == Char(n) { var cp := LookEncodes(s); }
    if n <= |s| {
      if cp: int :| Scalar(cp) && s[..n] == Utf8(cp) {
        Utf8Looks(cp, s[n..]);
        assert s == s[..n] + s[n..];
      }
    }
  }

  /** An invalid stretch is one byte, or the longest beginning of a character. */
  lemma BadStretch(s: seq<Byte>, n: nat)
    requires s != [] && Look(s) == Bad(n)
    ensures n <= |s| && (n > 1 ==> Look(s[..n]).Cut?)
    ensures forall k :: n < k <= |s| ==> !Look(s[..k]).Cut?
  {
  }

  /** An early end is exactly a proper prefix of some character. */
  lemma CutIsProperPrefix(s: seq<Byte>)
    requires s != []
    ensures Look(s).Cut? <==> exists more: seq<Byte> :: more != [] && Look(s + more) == Char(|s + more|)
  {
    if Look(s).Cut? {
      var second: Byte := if s[0] == 0xE0 then 0xA0 else if s[0] == 0xF0 then 0x90 else 0x80;
      var w := Width(s[0]);
      var whole := [s[0], if |s| > 1 then s[1] else second, if |s| > 2 then s[2] else 0x80, 0x80][..w];
      var more := whole[|s|..];
      assert s + more == whole;
      assert Look(whole) == Char(w);
    } else {
      forall more: seq<Byte> | more != []
        ensures Look(s + more) != Char(|s + more|)
      {
        LookStable(s, more);
        LookBounds(s);
      }
    }
  }

  // ------------------------------------------------------------ whole strings

  /** RFC 3629 section 4: a sequence of characters. */
  predicate WellFormed(s: seq<Byte>)
    decreases |s|
  {
    s == [] || (Look(s).Char? && (LookBounds(s); WellFormed(s[Look(s).len..])))
  }

  /** `Utf8Error::valid_up_to`: the length of the longest prefix made of whole characters. */
  function ValidLen(s: seq<Byte>): (n: nat)
    ensures n <= |s|
    decreases |s|
  {
    if s == [] || !Look(s).Char? then 0
    else
      LookBounds(s);
      Look(s).len + ValidLen(s[Look(s).len..])
  }

  /** A character is recognised by its own bytes. */
  lemma LookOwn(s: seq<Byte>)
    requires s != [] && Look(s).Char?
    ensures Look(s).len <= |s| && s[..Look(s).len] != [] && Look(s[..Look(s).len]) == Look(s)
  {
  }

  lemma {:induction false} ValidSplit(s: seq<Byte>) returns (v: seq<Byte>, r: seq<Byte>)
    ensures s == v + r && |v| == ValidLen(s) && WellFormed(v) && (r == [] || !Look(r).Char?)
    decreases |s|
  {
    if s == [] || !Look(s).Char? {
      v, r := [], s;
    } else {
      var c, tail := FirstChar(s);
      var v1;
      v1, r := ValidSplit(tail);
      v := c + v1;
      OneMore(c, v1);
      Assoc(c, v1, r);
    }
  }

  lemma FirstChar(s: seq<Byte>) returns (c: seq<Byte>, tail: seq<Byte>)
    requires s != [] && Look(s).Char?
    ensures s == c + tail && c != [] && Look(c) == Char(|c|) && |tail| < |s| && ValidLen(s) == |c| + ValidLen(tail)
  {
    LookOwn(s);
    c, tail := s[..Look(s).len], s[Look(s).len..];
  }

  lemma OneMore(c: seq<Byte>, v: seq<Byte>)
    requires c != [] && Look(c) == Char(|c|) && WellFormed(v)
    ensures WellFormed(c + v)
  {
    LookStable(c, v);
    assert (c + v)[|c|..] == v;
  }

  /** Whole characters may be taken off the front of a well-formed string. */
  lemma {:induction false} DropPrefix(a: seq<Byte>, b: seq<Byte>)
    requires WellFormed(a)
    ensures WellFormed(a + b) <==> WellFormed(b)
    decreases |a|
  {
    if a == [] {
      assert a + b == b;
    } else {
      LookBounds(a);
      LookStable(a, b);
      var k := Look(a).len;
      assert (a + b)[k..] == a[k..] + b;
      DropPrefix(a[k..], b);
    }
  }

  // ------------------------------------------------------------------- one step

  /** What one call hands out, discards and keeps. */
  datatype Taken = Taken(piece: seq<Byte>, dropped: seq<Byte>, rest: seq<Byte>)

  function Take(buf: seq<Byte>): Taken {
    var n := ValidLen(buf);
    var rest := buf[n..];
    if rest != [] && Look(rest).Bad? then
      LookBounds(rest);
      Taken(buf[..n], rest[..Look(rest).len], rest[Look(rest).len..])
    else Taken(buf[..n], [], rest)
  }

  /** One call partitions the buffer: a well-formed piece, at most one invalid stretch of at most three
      bytes, and the rest; without an invalid stretch the rest is a proper prefix of one character. */
  lemma TakePartitions(buf: seq<Byte>)
    ensures var t := Take(buf);
            && t.piece + t.dropped + t.rest == buf && WellFormed(t.piece) && |t.dropped| <= 3
            && (t.dropped == [] ==> t.rest == [] || Look(t.rest).Cut?)
            && (t.dropped != [] ==> Look(t.dropped + t.rest) == Bad(|t.dropped|))
  {
    hide Take, ValidLen;
    var v, r := ValidSplit(buf);
    TakeSplit(buf, v, r);
    if r != [] { LookBounds(r); }
    if r != [] && Look(r).Bad? {
      var k := Look(r).len;
      assert r == r[..k] + r[k..];
      Assoc(v, r[..k], r[k..]);
    } else {
      Assoc(v, [], r);
      assert [] + r == r;
    }
  }

  lemma TakeSplit(buf: seq<Byte>, v: seq<Byte>, r: seq<Byte>)
    requires buf == v + r && |v| == ValidLen(buf)
    ensures r != [] && Look(r).Bad? ==> Look(r).len <= |r| && Take(buf) == Taken(v, r[..Look(r).len], r[Look(r).len..])
    ensures r == [] || !Look(r).Bad? ==> Take(buf) == Taken(v, [], r)
  {
    if r != [] { LookBounds(r); }
    assert buf[..|v|] == v && buf[|v|..] == r;
  }

  lemma Assoc(a: seq<Byte>, b: seq<Byte>, c: seq<Byte>)
    ensures a + (b + c) == a + b + c
  {
  }

  class Utf8Buffer {
    var buf: seq<Byte>

    constructor ()
      ensures buf == []
    {
      buf := [];
    }

    method Extend(bytes: seq<Byte>)
      modifies this
      ensures buf == old(buf) + bytes
    {
      buf := buf + bytes;
    }

    /** `take_valid_utf8`: drains the longest valid prefix, and one invalid stretch after it if any. */
    method TakeValidUtf8() returns (piece: seq<Byte>)
      modifies this
      ensures piece == Take(old(buf)).piece && buf == Take(old(buf)).rest
    {
      var valid := ScanValid();
      piece := buf[..valid];
      var rest := buf[valid..];
      if rest == [] {
        buf := [];
      } else {
        LookBounds(rest);
        match Look(rest) {
          case Bad(bad) => buf := buf[valid + bad..];
          case _ => buf := rest;
        }
      }
    }

    method ScanValid() returns (n: nat)
      ensures n == ValidLen(buf)
    {
      hide Look, ValidLen;
      n := 0;
      assert buf[0..] == buf;
      while n < |buf| && Look(buf[n..]).Char?
        invariant n <= |buf| && ValidLen(buf) == n + ValidLen(buf[n..])
      {
        ValidStep(buf, n);
        n := n + Look(buf[n..]).len;
      }
      ValidEnd(buf[n..]);
    }
  }

  lemma ValidStep(s: seq<Byte>, n: nat)
    requires n < |s| && Look(s[n..]).Char?
    ensures var k := Look(s[n..]).len; 0 < k && n + k <= |s| && ValidLen(s[n..]) == k + ValidLen(s[n + k..])
  {
    hide Look;
    LookBounds(s[n..]);
    var k := Look(s[n..]).len;
    assert s[n..][k..] == s[n + k..];
  }

  lemma ValidEnd(s: seq<Byte>)
    requires s == [] || !Look(s).Char?
    ensures ValidLen(s) == 0
  {
  }

  // -------------------------------------------------------------- whole streams

  /** What a stream of tokens emits, starting from a buffer, and what stays in the buffer. */
  function Emitted(buf: seq<Byte>, tokens: seq<seq<Byte>>): seq<Byte>
    decreases |tokens|
  {
    if tokens == [] then []
    else Take(buf + tokens[0]).piece + Emitted(Take(buf + tokens[0]).rest, tokens[1..])
  }

  function Left(buf: seq<Byte>, tokens: seq<seq<Byte>>): seq<Byte>
    decreases |tokens|
  {
    if tokens == [] then buf else Left(Take(buf + tokens[0]).rest, tokens[1..])
  }

  function Flatten(tokens: seq<seq<Byte>>): seq<Byte> {
    if tokens == [] then [] else tokens[0] + Flatten(tokens[1..])
  }

  /** The token loop: every token's bytes are appended to the buffer and the valid part streamed out. */
  method StreamTokens(tokens: seq<seq<Byte>>) returns (full: seq<Byte>, rest: seq<Byte>)
    ensures full == Emitted([], tokens) && rest == Left([], tokens)
  {
    hide Take;
    var b := new Utf8Buffer();
    full := [];
    for i := 0 to |tokens|
      invariant Emitted([], tokens) == full + Emitted(b.buf, tokens[i..])
      invariant Left([], tokens) == Left(b.buf, tokens[i..])
    {
      var before := b.buf;
      b.Extend(tokens[i]);
      var piece := b.TakeValidUtf8();
      assert tokens[i..][0] == tokens[i] && tokens[i..][1..] == tokens[i + 1..];
      assert full + (piece + Emitted(b.buf, tokens[i + 1..])) == full + piece + Emitted(b.buf, tokens[i + 1..]);
      if piece != [] {
        full := full + piece;
      } else {
        assert full + piece == full;
      }
    }
    rest := b.buf;
    assert full + [] == full;
  }

  /** The buffer between tokens: nothing, or the first bytes of one character. */
  predicate Pending(buf: seq<Byte>) { buf == [] || Look(buf).Cut? }

  /** One token of a well-formed stream: nothing is dropped, and what is kept is pending. */
  lemma TakeOfWellFormed(buf: seq<Byte>, future: seq<Byte>)
    requires WellFormed(buf + future)
    ensures var t := Take(buf);
            t.dropped == [] && t.piece + t.rest == buf && WellFormed(t.piece) && Pending(t.rest)
                && WellFormed(t.rest + future)
  {
    var t := Take(buf);
    TakePartitions(buf);
    var rest := t.dropped + t.rest;
    Assoc(t.piece, t.dropped, t.rest);
    Assoc(t.piece, rest, future);
    DropPrefix(t.piece, rest + future);
    if t.dropped != [] {
      LookStable(rest, future);
      assert false;
    }
    assert rest == t.rest;
  }

  /** Streaming a well-formed text through any chunking: after every token, what has been emitted
      followed by the buffer is what has been fed, the buffer holds at most three bytes of one
      unfinished character, and the emitted part is well formed. */
  lemma {:induction false} StreamRefines(buf: seq<Byte>, tokens: seq<seq<Byte>>, future: seq<Byte>)
    requires Pending(buf) && WellFormed(buf + Flatten(tokens) + future)
    ensures Emitted(buf, tokens) + Left(buf, tokens) == buf + Flatten(tokens)
    ensures Pending(Left(buf, tokens)) && |Left(buf, tokens)| <= 3 && WellFormed(Emitted(buf, tokens))
    decreases |tokens|
  {
    if tokens == [] {
      if buf != [] { LookBounds(buf); }
    } else {
      var tail := Flatten(tokens[1..]);
      var fed := buf + tokens[0];
      var t := Take(fed);
      Assoc(buf, tokens[0], tail);
      Assoc(fed, tail, future);
      TakeOfWellFormed(fed, tail + future);
      Assoc(t.rest, tail, future);
      StreamRefines(t.rest, tokens[1..], future);
      var e, l := Emitted(t.rest, tokens[1..]), Left(t.rest, tokens[1..]);
      DropPrefix(t.piece, e);
      Assoc(t.piece, e, l);
      Assoc(t.piece, t.rest, tail);
    }
  }

  /** Every way of cutting a well-formed text into tokens streams out exactly that text. */
  lemma StreamIsComplete(tokens: seq<seq<Byte>>)
    requires WellFormed(Flatten(tokens))
    ensures Emitted([], tokens) == Flatten(tokens) && Left([], tokens) == []
  {
    var text := Flatten(tokens);
    assert [] + text + [] == text && [] + text == text;
    StreamRefines([], tokens, []);
    var e, l := Emitted([], tokens), Left([], tokens);
    DropPrefix(e, l);
    assert l == [];
    assert e + l == e;
  }

  /** On arbitrary bytes the stream still emits only well-formed text and never reorders or invents a byte. */
  lemma {:induction false} StreamOnlyDeletes(buf: seq<Byte>, tokens: seq<seq<Byte>>)
    ensures WellFormed(Emitted(buf, tokens))
    ensures Subseq(Emitted(buf, tokens) + Left(buf, tokens), buf + Flatten(tokens))
    decreases |tokens|
  {
    if tokens == [] {
      assert [] + buf == buf && buf + [] == buf;
      Refl(buf);
    } else {
      var tail := Flatten(tokens[1..]);
      var fed := buf + tokens[0];
      var t := Take(fed);
      TakePartitions(fed);
      StreamOnlyDeletes(t.rest, tokens[1..]);
      var e, l := Emitted(t.rest, tokens[1..]), Left(t.rest, tokens[1..]);
      DropPrefix(t.piece, e);
      OneToken(t, e + l, tail);
      Assoc(t.piece, e, l);
      Assoc(buf, tokens[0], tail);
    }
  }

  lemma OneToken(t: Taken, out: seq<Byte>, tail: seq<Byte>)
    requires Subseq(out, t.rest + tail)
    ensures Subseq(t.piece + out, t.piece + t.dropped + t.rest + tail)
  {
    Refl(t.piece);
    assert t.piece + [] == t.piece;
    assert Subseq([], t.dropped);
    Concat(t.piece, t.piece, [], t.dropped);
    Concat(t.piece, t.piece + t.dropped, out, t.rest + tail);
    Assoc(t.piece + t.dropped, t.rest, tail);
  }

  // -------------------------------------------------- what is not emitted, exactly

  /** Everything fed is emitted exactly when it is well formed. */
  lemma AllEmittedIff(tokens: seq<seq<Byte>>)
    ensures Emitted([], tokens) == Flatten(tokens) <==> WellFormed(Flatten(tokens))
  {
    StreamOnlyDeletes([], tokens);
    if WellFormed(Flatten(tokens)) { StreamIsComplete(tokens); }
  }

  lemma {:induction false} LeftSnoc(buf: seq<Byte>, tokens: seq<seq<Byte>>, token: seq<Byte>)
    ensures Left(buf, tokens + [token]) == Take(Left(buf, tokens) + token).rest
    decreases |tokens|
  {
    hide Take;
    if tokens == [] {
      assert tokens + [token] == [token];
    } else {
      assert (tokens + [token])[1..] == tokens[1..] + [token];
      LeftSnoc(Take(buf + tokens[0]).rest, tokens[1..], token);
    }
  }

  lemma {:induction false} ValidLenOf(v: seq<Byte>, r: seq<Byte>)
    requires WellFormed(v) && r != [] && !Look(r).Char?
    ensures ValidLen(v + r) == |v|
    decreases |v|
  {
    if v == [] {
      assert v + r == r;
    } else {
      LookBounds(v);
      LookStable(v, r);
      var k := Look(v).len;
      assert (v + r)[k..] == v[k..] + r;
      ValidLenOf(v[k..], r);
    }
  }

  /** `buf` is whole characters, then a stretch that starts none, then `rest`. */
  ghost predicate Broken(buf: seq<Byte>, v: seq<Byte>, bad: seq<Byte>, rest: seq<Byte>) {
    buf == v + bad + rest && WellFormed(v) && bad != [] && Look(bad + rest) == Bad(|bad|)
  }

  lemma TakeOfBroken(buf: seq<Byte>, v: seq<Byte>, bad: seq<Byte>, rest: seq<Byte>)
    requires Broken(buf, v, bad, rest)
    ensures Take(buf) == Taken(v, bad, rest)
  {
    hide Take, ValidLen;
    Assoc(v, bad, rest);
    ValidLenOf(v, bad + rest);
    TakeSplit(buf, v, bad + rest);
    assert (bad + rest)[..|bad|] == bad && (bad + rest)[|bad|..] == rest;
  }

  /** What the buffer holds after a token, exactly. It is more than the start of one character if and
      only if the bytes seen by the last call were whole characters, then an invalid stretch, then what is
      left: one invalid stretch is dropped per call, and whatever follows it waits for a next token. */
  lemma WithheldIff(tokens: seq<seq<Byte>>, token: seq<Byte>, rest: seq<Byte>)
    requires !Pending(rest)
    ensures Left([], tokens + [token]) == rest <==>
            exists v: seq<Byte>, bad: seq<Byte> :: Broken(Left([], tokens) + token, v, bad, rest)
  {
    hide Take;
    LeftSnoc([], tokens, token);
    var buf := Left([], tokens) + token;
    var t := Take(buf);
    if t.rest == rest {
      TakePartitions(buf);
      assert Broken(buf, t.piece, t.dropped, rest);
    }
    if v: seq<Byte>, bad: seq<Byte> :| Broken(buf, v, bad, rest) { TakeOfBroken(buf, v, bad, rest); }
  }

  /** The smallest instance: the letter after a stray byte is never shown when the stream ends there. */
  lemma TailWithheld()
    ensures Emitted([], [[0xFF, 0x61]]) == [] && Left([], [[0xFF, 0x61]]) == [0x61]
  {
    var fed: seq<Byte> := [0xFF, 0x61];
    assert [] + fed == fed;
    assert Look(fed) == Bad(1);
    assert Take(fed) == Taken([], [0xFF], [0x61]);
  }
}
