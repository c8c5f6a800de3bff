/** The quote-aware scanners of `inference.rs`: brace and parenthesis matching, and splitting on
    unquoted separators. Each loop computes a recursive function; the lemmas say what those
    functions mean on arbitrary text and on JSON text. */
module Scanner {
  import opened Text
  import opened Json

  // ------------------------------------------------------------ quote tracking

  /** The scanners' `in_string`/`escaped` flags. */
  datatype Quote = Outside | Inside | Escaped

  function QuoteStep(q: Quote, c: char): Quote {
    match q
    case Outside => if c == '"' then Inside else Outside
    case Inside => if c == '\\' then Escaped else if c == '"' then Outside else Inside
    case Escaped => Inside
  }

  function QuoteOf(inString: bool, escaped: bool): Quote {
    if !inString then Outside else if escaped then Escaped else Inside
  }

  // --------------------------------------------------------- bracket matching

  datatype Brackets = Brackets(open: char, close: char)

  const BRACES := Brackets('{', '}')
  const PARENS := Brackets('(', ')')

  datatype Scan = Scan(depth: int, quote: Quote)

  function Step(st: Scan, c: char, b: Brackets): Scan {
    Scan(
      if st.quote.Outside? && c == b.open then st.depth + 1
      else if st.quote.Outside? && c == b.close then st.depth - 1
      else st.depth,
      QuoteStep(st.quote, c))
  }

  /** The scanner's state after all of `s`. */
  function Run(st: Scan, s: string, b: Brackets): Scan
    decreases |s|
  {
    if s == "" then st else Step(Run(st, s[..|s| - 1], b), s[|s| - 1], b)
  }

  /** Depth zero, outside every string. */
  predicate Closed(st: Scan) { st.depth == 0 && st.quote.Outside? }

  function Shift(n: nat, r: Option<nat>): Option<nat> {
    if r.None? then None else Some(n + r.value)
  }

  /** How many characters of `s` are consumed when a closing bracket brings the depth to zero. */
  function Closing(s: string, st: Scan, b: Brackets): (r: Option<nat>)
    ensures r.Some? ==> 0 < r.value <= |s|
  {
    if s == "" then None
    else
      var next := Step(st, s[0], b);
      if st.quote.Outside? && s[0] == b.close && next.depth == 0 then Some(1)
      else Shift(1, Closing(s[1..], next, b))
  }

  /** `balanced_json_object_end`. */
  function ObjectEnd(s: string): (r: Option<nat>)
    ensures r.Some? ==> 0 < r.value <= |s| && s[0] == '{'
  {
    if s == "" || s[0] != '{' then None else Closing(s, Scan(0, Outside), BRACES)
  }

  /** `balanced_paren_end`: the offset of the `)` that closes an already consumed `(`. */
  function ParenEnd(s: string): (r: Option<nat>)
    ensures r.Some? ==> r.value < |s|
  {
    var r := Closing(s, Scan(1, Outside), PARENS);
    if r.None? then None else Some(r.value - 1)
  }

  method BalancedJsonObjectEnd(text: string) returns (r: Option<nat>)
    ensures r == ObjectEnd(text)
  {
    if |text| == 0 || text[0] != '{' {
      return None;
    }
    var depth, inString, escaped := 0, false, false;
    for i := 0 to |text|
      invariant escaped ==> inString
      invariant ObjectEnd(text) ==
                Shift(i, Closing(text[i..], Scan(depth, QuoteOf(inString, escaped)), BRACES))
    {
      var c := text[i];
      assert text[i..][1..] == text[i + 1..];
      if inString {
        if escaped {
          escaped := false;
        } else if c == '\\' {
          escaped := true;
        } else if c == '"' {
          inString := false;
        }
        continue;
      }
      match c {
        case '"' => inString := true;
        case '{' => depth := depth + 1;
        case '}' =>
          depth := depth - 1;
          if depth == 0 {
            return Some(i + 1);
          }
        case _ =>
      }
    }
    return None;
  }

  method BalancedParenEnd(text: string) returns (r: Option<nat>)
    ensures r == ParenEnd(text)
  {
    var depth, inString, escaped := 1, false, false;
    for i := 0 to |text|
      invariant escaped ==> inString
      invariant Closing(text, Scan(1, Outside), PARENS) ==
                Shift(i, Closing(text[i..], Scan(depth, QuoteOf(inString, escaped)), PARENS))
    {
      var c := text[i];
      assert text[i..][1..] == text[i + 1..];
      if inString {
        if escaped {
          escaped := false;
        } else if c == '\\' {
          escaped := true;
        } else if c == '"' {
          inString := false;
        }
        continue;
      }
      match c {
        case '"' => inString := true;
        case '(' => depth := depth + 1;
        case ')' =>
          depth := depth - 1;
          if depth == 0 {
            return Some(i);
          }
        case _ =>
      }
    }
    return None;
  }

  // ------------------------------------- what an answer means on arbitrary text

  lemma {:induction false} RunFront(st: Scan, s: string, b: Brackets)
    requires s != ""
    ensures Run(st, s, b) == Run(Step(st, s[0], b), s[1..], b)
    decreases |s|
  {
    if |s| == 1 {
      assert s[..0] == "";
    } else {
      RunFront(st, s[..|s| - 1], b);
      assert s[..|s| - 1][1..] == s[1..][..|s| - 2];
    }
  }

  /** `e` is the shortest non-empty prefix after which the scanner stands closed. */
  ghost predicate ShortestClosed(st: Scan, s: string, b: Brackets, e: nat) {
    && 0 < e <= |s|
    && Closed(Run(st, s[..e], b))
    && forall j :: 0 < j < e ==> !Closed(Run(st, s[..j], b))
  }

  /** The scanner answers exactly the shortest closed prefix, when it starts inside a bracket. */
  lemma {:induction false} ClosingIsShortest(s: string, st: Scan, b: Brackets, e: nat)
    requires b.open != b.close && b.open != '"' && b.close != '"'
    requires st.depth > 0 || (s != "" && s[0] == b.open && st == Scan(0, Outside))
    ensures Closing(s, st, b) == Some(e) <==> ShortestClosed(st, s, b, e)
    decreases |s|
  {
    if s != "" {
      var next := Step(st, s[0], b);
      assert Run(st, s[..1], b) == next by { assert s[..1][..0] == ""; }
      if st.quote.Outside? && s[0] == b.close && next.depth == 0 {
        assert Closed(Run(st, s[..1], b));
      } else {
        forall j | 0 < j <= |s|
          ensures Run(st, s[..j], b) == Run(next, s[1..][..j - 1], b)
        {
          RunFront(st, s[..j], b);
          assert s[..j][1..] == s[1..][..j - 1];
        }
        assert !Closed(next);
        if e > 1 {
          ClosingIsShortest(s[1..], next, b, e - 1);
          ShortestShift(st, s, b, e);
        } else {
          assert Closing(s, st, b) != Some(e);
        }
      }
    }
  }

  lemma ShortestShift(st: Scan, s: string, b: Brackets, e: nat)
    requires s != "" && e > 1
    requires var next := Step(st, s[0], b);
             !Closed(next) && forall j :: 0 < j <= |s| ==> Run(st, s[..j], b) == Run(next, s[1..][..j - 1], b)
    ensures ShortestClosed(st, s, b, e) <==> ShortestClosed(Step(st, s[0], b), s[1..], b, e - 1)
  {
    var next := Step(st, s[0], b);
    assert s[1..][..0] == "";
    if ShortestClosed(st, s, b, e) {
      forall j | 0 < j < e - 1 ensures !Closed(Run(next, s[1..][..j], b)) {
        assert Run(st, s[..j + 1], b) == Run(next, s[1..][..j + 1 - 1], b);
      }
    }
    if ShortestClosed(next, s[1..], b, e - 1) {
      forall j | 0 < j < e ensures !Closed(Run(st, s[..j], b)) {
        assert Run(st, s[..j], b) == Run(next, s[1..][..j - 1], b);
      }
    }
  }

  lemma {:induction false} ClosingEnds(s: string, st: Scan, b: Brackets)
    ensures var r := Closing(s, st, b); r.Some? ==> s[r.value - 1] == b.close
  {
    if s != "" { ClosingEnds(s[1..], Step(st, s[0], b), b); }
  }

  /** Any answer of `balanced_json_object_end` is the unique shortest prefix, starting at a `{`,
      whose braces outside strings balance; no answer means there is none. */
  lemma ObjectEndIsShortest(s: string, e: nat)
    ensures ObjectEnd(s) == Some(e) <==> s != "" && s[0] == '{' && ShortestClosed(Scan(0, Outside), s, BRACES, e)
  {
    if s != "" && s[0] == '{' {
      ClosingIsShortest(s, Scan(0, Outside), BRACES, e);
    }
  }

  // ----------------------------------------------------- scanning JSON text

  /** Scanning `s` from `st` passes over everything before its tail `k` and is back in `st` there. */
  ghost predicate Past(s: string, k: string, st: Scan, b: Brackets) {
    |k| <= |s| && Closing(s, st, b) == Shift(|s| - |k|, Closing(k, st, b))
  }

  predicate Usual(b: Brackets) { b == BRACES || b == PARENS }

  /** No character the scanner reacts to outside a string. */
  predicate Quiet(s: string, b: Brackets) {
    forall i :: 0 <= i < |s| ==> s[i] != '"' && s[i] != b.open && s[i] != b.close
  }

  lemma {:induction false} QuietPast(s: string, k: string, st: Scan, b: Brackets)
    requires Usual(b) && Quiet(s, b) && st.quote.Outside?
    ensures Past(s + k, k, st, b)
  {
    if s == "" {
      assert s + k == k;
    } else {
      assert (s + k)[1..] == s[1..] + k;
      QuietPast(s[1..], k, st, b);
    }
  }

  lemma WsPast(ws: string, k: string, st: Scan, b: Brackets)
    requires Usual(b) && JsonWs(ws) && st.quote.Outside?
    ensures Past(ws + k, k, st, b)
  {
    QuietPast(ws, k, st, b);
  }

  lemma PiecePast(p: Piece, k: string, depth: int, b: Brackets)
    requires Usual(b) && LoosePiece(p)
    ensures Past(PieceText(p) + k, k, Scan(depth, Inside), b)
  {
    match p
    case Raw(c) =>
      assert ([c] + k)[1..] == k;
    case Esc(e) =>
      EscapePast(e, k, depth, b);
    case Uni(h) =>
      HexPast(h, k, depth, b);
    case Pair(l, t) =>
      HexPast(l, "\\u" + t + k, depth, b);
      HexPast(t, k, depth, b);
      assert PieceText(p) + k == "\\u" + l + ("\\u" + t + k);
  }

  lemma HexPast(hex: string, k: string, depth: int, b: Brackets)
    requires IsHex4(hex)
    ensures Past("\\u" + hex + k, k, Scan(depth, Inside), b)
  {
    EscapePast('u', hex + k, depth, b);
    InsidePast(hex, k, depth, b);
    assert "\\u" + hex + k == ['\\', 'u'] + (hex + k);
  }

  lemma EscapePast(e: char, k: string, depth: int, b: Brackets)
    ensures Past(['\\', e] + k, k, Scan(depth, Inside), b)
  {
    var s := ['\\', e] + k;
    assert s[1..] == [e] + k && s[1..][1..] == k;
    assert Closing(s[1..], Scan(depth, Escaped), b) == Shift(1, Closing(k, Scan(depth, Inside), b));
  }

  lemma {:induction false} InsidePast(s: string, k: string, depth: int, b: Brackets)
    requires forall i :: 0 <= i < |s| ==> s[i] != '"' && s[i] != '\\'
    ensures Past(s + k, k, Scan(depth, Inside), b)
  {
    if s == "" {
      assert s + k == k;
    } else {
      assert (s + k)[1..] == s[1..] + k;
      InsidePast(s[1..], k, depth, b);
    }
  }

  /** Skipping one stretch after another. */
  lemma PastTrans(s: string, k: string, rest: string, st: Scan, b: Brackets)
    requires Past(s, k, st, b) && Past(k, rest, st, b)
    ensures Past(s, rest, st, b)
  {
    hide Closing;
  }

  lemma PastSelf(k: string, st: Scan, b: Brackets)
    ensures Past(k, k, st, b)
  {
    hide Closing;
  }

  lemma {:induction false} BodyPast(body: seq<Piece>, k: string, depth: int, b: Brackets)
    requires Usual(b) && LooseBody(body)
    ensures Past(BodyText(body, k), k, Scan(depth, Inside), b)
  {
    hide Past, PieceText, LoosePiece;
    if body == [] {
      PastSelf(k, Scan(depth, Inside), b);
    } else {
      var rest := BodyText(body[1..], k);
      assert LoosePiece(body[0]);
      PiecePast(body[0], rest, depth, b);
      BodyPast(body[1..], k, depth, b);
      PastTrans(BodyText(body, k), rest, k, Scan(depth, Inside), b);
    }
  }

  /** A whole string literal, from its opening quote. */
  lemma LiteralPast(body: seq<Piece>, k: string, depth: int, b: Brackets)
    requires Usual(b) && LooseBody(body)
    ensures Past("\"" + BodyText(body, "\"" + k), k, Scan(depth, Outside), b)
  {
    var inner := BodyText(body, "\"" + k);
    BodyPast(body, "\"" + k, depth, b);
    assert ("\"" + inner)[1..] == inner;
    assert ("\"" + k)[1..] == k;
    assert Closing("\"" + k, Scan(depth, Inside), b) == Shift(1, Closing(k, Scan(depth, Outside), b));
  }

  /** Scanning passes over any tree's text at positive depth. */
  lemma {:induction false} TreePast(c: Cst, k: string, depth: int, b: Brackets)
    requires Usual(b) && Loose(c) && depth > 0
    ensures Past(TextOf(c, k), k, Scan(depth, Outside), b)
    decreases c, 1
  {
    var st := Scan(depth, Outside);
    match c
    case CLit(w) => QuietPast(w, k, st, b);
    case CNum(l) => QuietPast(l, k, st, b);
    case CStr(body) => LiteralPast(body, k, depth, b);
    case CArr(g, es) => ArrayPast(g, es, k, depth, b);
    case CObj(g, ms) => ObjectPast(g, ms, k, depth, b);
  }

  lemma {:induction false} ArrayPast(g: string, es: Elems, k: string, depth: int, b: Brackets)
    requires Usual(b) && Loose(CArr(g, es)) && depth > 0
    ensures Past(TextOf(CArr(g, es), k), k, Scan(depth, Outside), b)
    decreases es, 3
  {
    hide Past;
    var st := Scan(depth, Outside);
    var inner := if es.ENil? then g + ("]" + k) else ElemsText(es, k);
    if es.ENil? {
      WsPast(g, "]" + k, st, b);
      QuietPast("]", k, st, b);
      PastTrans(inner, "]" + k, k, st, b);
    } else {
      ElemsPast(es, k, depth, b);
    }
    QuietPast("[", inner, st, b);
    PastTrans("[" + inner, inner, k, st, b);
  }

  /** Between an object's braces the brace scanner runs one deeper; the parenthesis scanner does not notice. */
  lemma {:induction false} ObjectPast(g: string, ms: Members, k: string, depth: int, b: Brackets)
    requires Usual(b) && Loose(CObj(g, ms)) && depth >= 0
    ensures depth > 0 ==> Past(TextOf(CObj(g, ms), k), k, Scan(depth, Outside), b)
    ensures depth == 0 && b == BRACES ==>
              Closing(TextOf(CObj(g, ms), k), Scan(0, Outside), b) == Some(|TextOf(CObj(g, ms), k)| - |k|)
    decreases ms, 3
  {
    hide Past, Closing;
    var inner := Scan(if b == BRACES then depth + 1 else depth, Outside);
    if ms.MNil? {
      WsPast(g, "}" + k, inner, b);
      BracedPast(g + ("}" + k), k, depth, b);
    } else {
      if inner.depth > 0 { MembersPast(ms, k, inner.depth, b); }
      BracedPast(MembersText(ms, k), k, depth, b);
    }
  }

  /** The braces around text that the scanner gets past. */
  lemma BracedPast(body: string, k: string, depth: int, b: Brackets)
    requires Usual(b) && depth >= 0
    requires var inner := if b == BRACES then depth + 1 else depth;
             inner > 0 ==> Past(body, "}" + k, Scan(inner, Outside), b)
    ensures depth > 0 ==> Past("{" + body, k, Scan(depth, Outside), b)
    ensures depth == 0 && b == BRACES ==> Closing("{" + body, Scan(0, Outside), b) == Some(|"{" + body| - |k|)
  {
    assert ("{" + body)[1..] == body && ("}" + k)[1..] == k;
  }

  lemma {:induction false} ElemsPast(es: Elems, k: string, depth: int, b: Brackets)
    requires Usual(b) && es.ECons? && LooseElems(es) && depth > 0
    ensures Past(ElemsText(es, k), k, Scan(depth, Outside), b)
    decreases es, 2
  {
    hide Past, TextOf;
    var st := Scan(depth, Outside);
    if es.tail.ENil? {
      SlotPast(es.pre, es.elem, es.post, "]" + k, depth, b);
      QuietPast("]", k, st, b);
      PastTrans(ElemsText(es, k), "]" + k, k, st, b);
    } else {
      var rest := ElemsText(es.tail, k);
      SlotPast(es.pre, es.elem, es.post, "," + rest, depth, b);
      QuietPast(",", rest, st, b);
      ElemsPast(es.tail, k, depth, b);
      PastTrans(ElemsText(es, k), "," + rest, rest, st, b);
      PastTrans(ElemsText(es, k), rest, k, st, b);
    }
  }

  /** A value and the white space around it. */
  lemma {:induction false} SlotPast(pre: string, c: Cst, post: string, k: string, depth: int, b: Brackets)
    requires Usual(b) && JsonWs(pre) && Loose(c) && JsonWs(post) && depth > 0
    ensures Past(pre + TextOf(c, post + k), k, Scan(depth, Outside), b)
    decreases c, 2
  {
    var st := Scan(depth, Outside);
    WsPast(pre, TextOf(c, post + k), st, b);
    TreePast(c, post + k, depth, b);
    WsPast(post, k, st, b);
  }

  /** An object's members, up to its closing brace. */
  lemma {:induction false} MembersPast(ms: Members, k: string, depth: int, b: Brackets)
    requires Usual(b) && ms.MCons? && LooseMembers(ms) && depth > 0
    ensures Past(MembersText(ms, k), "}" + k, Scan(depth, Outside), b)
    decreases ms, 2
  {
    hide Past, TextOf, BodyText;
    if ms.tail.MNil? {
      MemberPast(ms, "}" + k, depth, b);
    } else {
      var rest, st := MembersText(ms.tail, k), Scan(depth, Outside);
      MemberPast(ms, "," + rest, depth, b);
      QuietPast(",", rest, st, b);
      MembersPast(ms.tail, k, depth, b);
      PastTrans(MembersText(ms, k), "," + rest, rest, st, b);
      PastTrans(MembersText(ms, k), rest, "}" + k, st, b);
    }
  }

  lemma {:induction false} MemberPast(ms: Members, k: string, depth: int, b: Brackets)
    requires Usual(b) && ms.MCons? && LooseMembers(ms) && depth > 0
    ensures Past(ms.pre + ("\"" + BodyText(ms.key, "\"" + (ms.mid + (":" + (ms.sep + TextOf(ms.val, ms.post + k)))))),
                 k, Scan(depth, Outside), b)
    decreases ms, 1
  {
    NamePast(ms, ms.sep + TextOf(ms.val, ms.post + k), depth, b);
    SlotPast(ms.sep, ms.val, ms.post, k, depth, b);
  }

  /** A member's name and colon. */
  lemma NamePast(ms: Members, k: string, depth: int, b: Brackets)
    requires Usual(b) && ms.MCons? && LooseMembers(ms)
    ensures Past(ms.pre + ("\"" + BodyText(ms.key, "\"" + (ms.mid + (":" + k)))), k, Scan(depth, Outside), b)
  {
    var st := Scan(depth, Outside);
    var afterKey := ms.mid + (":" + k);
    WsPast(ms.pre, "\"" + BodyText(ms.key, "\"" + afterKey), st, b);
    LiteralPast(ms.key, afterKey, depth, b);
    WsPast(ms.mid, ":" + k, st, b);
    QuietPast(":", k, st, b);
  }

  /** On an object's text, whatever follows it, the brace scanner answers exactly the object's length. */
  lemma ObjectEndOfText(c: Cst, k: string)
    requires Loose(c) && c.CObj?
    ensures |k| <= |TextOf(c, k)| && ObjectEnd(TextOf(c, k)) == Some(|TextOf(c, k)| - |k|)
  {
    ObjectPast(c.gap, c.members, k, 0, BRACES);
  }

  // ------------------------------------------------------ splitting arguments

  /** `split_top_level` from the middle of a segment whose text so far is `cur`. */
  function SplitFrom(s: string, sep: char, cur: string, q: Quote): (r: seq<string>)
    ensures r != []
    decreases |s|
  {
    if s == "" then [cur]
    else if q.Outside? && s[0] != '"' && s[0] == sep then [cur] + SplitFrom(s[1..], sep, "", Outside)
    else SplitFrom(s[1..], sep, cur + [s[0]], QuoteStep(q, s[0]))
  }

  function SplitTop(s: string, sep: char): (r: seq<string>)
    ensures r != []
  {
    SplitFrom(s, sep, "", Outside)
  }

  method SplitTopLevel(text: string, sep: char) returns (parts: seq<string>)
    ensures parts == SplitTop(text, sep)
  {
    parts := [];
    var start := 0;
    assert text[0..] == text && text[0..0] == "";
    var inString, escaped := false, false;
    for i := 0 to |text|
      invariant start <= i && (escaped ==> inString)
      invariant SplitTop(text, sep) ==
                parts + SplitFrom(text[i..], sep, text[start..i], QuoteOf(inString, escaped))
    {
      var c := text[i];
      assert text[i..][1..] == text[i + 1..];
      assert text[start..i] + [c] == text[start..i + 1];
      if inString {
        if escaped {
          escaped := false;
        } else if c == '\\' {
          escaped := true;
        } else if c == '"' {
          inString := false;
        }
        continue;
      }
      if c == '"' {
        inString := true;
      } else if c == sep {
        ghost var tail := SplitFrom(text[i + 1..], sep, "", Outside);
        assert text[i + 1..i + 1] == "";
        assert parts + ([text[start..i]] + tail) == (parts + [text[start..i]]) + tail;
        parts := parts + [text[start..i]];
        start := i + 1;
      }
    }
    assert text[|text|..] == "" && text[start..|text|] == text[start..];
    parts := parts + [text[start..]];
  }

  function Join(parts: seq<string>, sep: string): string {
    if parts == [] then ""
    else if |parts| == 1 then parts[0]
    else parts[0] + (sep + Join(parts[1..], sep))
  }

  /** Splitting loses nothing: the segments joined by the separator are the text. */
  lemma {:induction false} SplitJoins(s: string, sep: char, cur: string, q: Quote)
    ensures Join(SplitFrom(s, sep, cur, q), [sep]) == cur + s
    decreases |s|
  {
    if s == "" {
      assert cur + s == cur;
    } else if q.Outside? && s[0] != '"' && s[0] == sep {
      SplitJoins(s[1..], sep, "", Outside);
      var tail := SplitFrom(s[1..], sep, "", Outside);
      assert ([cur] + tail)[1..] == tail;
      assert cur + ([sep] + ("" + s[1..])) == cur + s;
    } else {
      SplitJoins(s[1..], sep, cur + [s[0]], QuoteStep(q, s[0]));
      assert cur + [s[0]] + s[1..] == cur + s;
    }
  }

  /** The quote state after `s`. */
  function QuoteAfter(q: Quote, s: string): Quote
    decreases |s|
  {
    if s == "" then q else QuoteAfter(QuoteStep(q, s[0]), s[1..])
  }

  /** No separator outside quotes. */
  predicate Unsplit(q: Quote, s: string, sep: char)
    decreases |s|
  {
    s == "" || (!(q.Outside? && s[0] == sep) && Unsplit(QuoteStep(q, s[0]), s[1..], sep))
  }

  /** The parts, joined by the separator, are the text; no part has a separator outside its quotes, and
      every part but the last closes the quotes it opens. */
  predicate CutsAt(s: string, sep: char, parts: seq<string>) {
    && parts != [] && s == Join(parts, [sep])
    && (forall i :: 0 <= i < |parts| ==> Unsplit(Outside, parts[i], sep))
    && (forall i :: 0 <= i < |parts| - 1 ==> QuoteAfter(Outside, parts[i]).Outside?)
  }

  lemma {:induction false} UnsplitSnoc(q: Quote, s: string, c: char, sep: char)
    ensures QuoteAfter(q, s + [c]) == QuoteStep(QuoteAfter(q, s), c)
    ensures Unsplit(q, s, sep) && !(QuoteAfter(q, s).Outside? && c == sep) ==> Unsplit(q, s + [c], sep)
    decreases |s|
  {
    if s == "" {
      assert s + [c] == [c] && [c][1..] == "";
    } else {
      assert (s + [c])[1..] == s[1..] + [c];
      UnsplitSnoc(QuoteStep(q, s[0]), s[1..], c, sep);
    }
  }

  lemma {:induction false} SplitCuts(s: string, sep: char, cur: string, q: Quote)
    requires sep != '"' && Unsplit(Outside, cur, sep) && QuoteAfter(Outside, cur) == q
    ensures CutsAt(cur + s, sep, SplitFrom(s, sep, cur, q))
    decreases |s|
  {
    SplitJoins(s, sep, cur, q);
    if s != "" {
      if q.Outside? && s[0] == sep {
        SplitCuts(s[1..], sep, "", Outside);
        var tail := SplitFrom(s[1..], sep, "", Outside);
        assert forall i :: 0 < i < |[cur] + tail| ==> ([cur] + tail)[i] == tail[i - 1];
      } else {
        UnsplitSnoc(Outside, cur, s[0], sep);
        SplitCuts(s[1..], sep, cur + [s[0]], QuoteStep(q, s[0]));
        assert cur + [s[0]] + s[1..] == cur + s;
      }
    }
  }

  lemma {:induction false} UnsplitPasses(part: string, k: string, sep: char, cur: string, q: Quote)
    requires sep != '"' && Unsplit(q, part, sep)
    ensures SplitFrom(part + k, sep, cur, q) == SplitFrom(k, sep, cur + part, QuoteAfter(q, part))
    decreases |part|
  {
    if part == "" {
      assert part + k == k && cur + part == cur;
    } else {
      assert (part + k)[1..] == part[1..] + k;
      assert cur + [part[0]] + part[1..] == cur + part;
      UnsplitPasses(part[1..], k, sep, cur + [part[0]], QuoteStep(q, part[0]));
    }
  }

  lemma {:induction false} CutsSplit(s: string, sep: char, parts: seq<string>)
    requires sep != '"' && CutsAt(s, sep, parts)
    ensures SplitTop(s, sep) == parts
    decreases |parts|
  {
    var part := parts[0];
    assert "" + part == part;
    if |parts| == 1 {
      UnsplitPasses(part, "", sep, "", Outside);
      assert part + "" == part && parts == [part];
    } else {
      var rest := Join(parts[1..], [sep]);
      UnsplitPasses(part, [sep] + rest, sep, "", Outside);
      assert forall i :: 0 <= i < |parts[1..]| ==> parts[1..][i] == parts[i + 1];
      CutsSplit(rest, sep, parts[1..]);
      assert ([sep] + rest)[1..] == rest;
      assert parts == [part] + parts[1..];
    }
  }

  /** Splitting cuts at exactly the separators outside quotes. */
  lemma SplitTopExact(s: string, sep: char, parts: seq<string>)
    requires sep != '"'
    ensures SplitTop(s, sep) == parts <==> CutsAt(s, sep, parts)
  {
    SplitCuts(s, sep, "", Outside);
    assert "" + s == s;
    if CutsAt(s, sep, parts) { CutsSplit(s, sep, parts); }
  }

  /** `split_first_top_level`. */
  function SplitFirst(s: string, sep: char): Option<(string, string)> {
    var parts := SplitTop(s, sep);
    if |parts| < 2 then None
    else
      SplitJoins(s, sep, "", Outside);
      assert "" + s == s;
      Some((parts[0], s[|parts[0]| + 1..]))
  }

  /** Text without quotes or separators joins the current segment unread. */
  lemma {:induction false} PlainJoins(t: string, k: string, sep: char, cur: string)
    requires forall i :: 0 <= i < |t| ==> t[i] != '"' && t[i] != sep
    ensures SplitFrom(t + k, sep, cur, Outside) == SplitFrom(k, sep, cur + t, Outside)
  {
    if t == "" {
      assert t + k == k && cur + t == cur;
    } else {
      assert (t + k)[1..] == t[1..] + k;
      assert cur + [t[0]] + t[1..] == cur + t;
      PlainJoins(t[1..], k, sep, cur + [t[0]]);
    }
  }

  lemma {:induction false} InsideJoins(t: string, k: string, sep: char, cur: string)
    requires forall i :: 0 <= i < |t| ==> t[i] != '"' && t[i] != '\\'
    ensures SplitFrom(t + k, sep, cur, Inside) == SplitFrom(k, sep, cur + t, Inside)
  {
    if t == "" {
      assert t + k == k && cur + t == cur;
    } else {
      assert (t + k)[1..] == t[1..] + k;
      assert cur + [t[0]] + t[1..] == cur + t;
      InsideJoins(t[1..], k, sep, cur + [t[0]]);
    }
  }

  lemma EscapeJoins(e: char, k: string, sep: char, cur: string)
    ensures SplitFrom(['\\', e] + k, sep, cur, Inside) == SplitFrom(k, sep, cur + ['\\', e], Inside)
  {
    var s := ['\\', e] + k;
    assert s[1..] == [e] + k && s[1..][1..] == k;
    assert cur + ['\\'] + [e] == cur + ['\\', e];
    assert SplitFrom(s[1..], sep, cur + ['\\'], Escaped) == SplitFrom(k, sep, cur + ['\\'] + [e], Inside);
  }

  lemma PieceJoins(p: Piece, k: string, sep: char, cur: string)
    requires LoosePiece(p)
    ensures SplitFrom(PieceText(p) + k, sep, cur, Inside) == SplitFrom(k, sep, cur + PieceText(p), Inside)
  {
    match p
    case Raw(c) =>
      assert ([c] + k)[1..] == k;
    case Esc(e) =>
      EscapeJoins(e, k, sep, cur);
    case Uni(h) =>
      HexJoins(h, k, sep, cur);
    case Pair(l, t) =>
      HexJoins(l, "\\u" + t + k, sep, cur);
      HexJoins(t, k, sep, cur + ("\\u" + l));
      assert PieceText(p) + k == "\\u" + l + ("\\u" + t + k);
      assert cur + ("\\u" + l) + ("\\u" + t) == cur + PieceText(p);
  }

  lemma HexJoins(hex: string, k: string, sep: char, cur: string)
    requires IsHex4(hex)
    ensures SplitFrom("\\u" + hex + k, sep, cur, Inside) == SplitFrom(k, sep, cur + ("\\u" + hex), Inside)
  {
    EscapeJoins('u', hex + k, sep, cur);
    InsideJoins(hex, k, sep, cur + ['\\', 'u']);
    assert "\\u" + hex + k == ['\\', 'u'] + (hex + k);
    assert cur + ['\\', 'u'] + hex == cur + ("\\u" + hex);
  }

  lemma JoinsOn(cur: string, piece: string, rest: string)
    ensures cur + piece + rest == cur + (piece + rest)
  {
  }

  lemma {:induction false} BodyJoins(body: seq<Piece>, k: string, sep: char, cur: string)
    requires LooseBody(body)
    ensures SplitFrom(BodyText(body, k), sep, cur, Inside) == SplitFrom(k, sep, cur + BodyText(body, ""), Inside)
  {
    hide SplitFrom, PieceText, LoosePiece;
    if body == [] {
      assert cur + "" == cur;
    } else {
      assert LoosePiece(body[0]);
      PieceJoins(body[0], BodyText(body[1..], k), sep, cur);
      BodyJoins(body[1..], k, sep, cur + PieceText(body[0]));
      JoinsOn(cur, PieceText(body[0]), BodyText(body[1..], ""));
    }
  }

  predicate Scalar(c: Cst) { c.CLit? || c.CNum? || c.CStr? }

  /** A scalar's text, quoted separators included, stays within one segment. */
  lemma ScalarJoins(c: Cst, k: string, sep: char, cur: string)
    requires Loose(c) && Scalar(c) && (sep == ',' || sep == ':')
    ensures SplitFrom(TextOf(c, k), sep, cur, Outside) == SplitFrom(k, sep, cur + TextOf(c, ""), Outside)
  {
    match c
    case CLit(w) =>
      PlainJoins(w, k, sep, cur);
      assert w + "" == w;
    case CNum(l) =>
      PlainJoins(l, k, sep, cur);
      assert l + "" == l;
    case CStr(b) =>
      var s := TextOf(c, k);
      assert s[1..] == BodyText(b, "\"" + k);
      BodyJoins(b, "\"" + k, sep, cur + "\"");
      assert ("\"" + k)[1..] == k;
      BodySplit(b, "\"");
      assert TextOf(c, "") == "\"" + BodyText(b, "\"" + "");
      assert "\"" + "" == "\"";
      assert cur + "\"" + BodyText(b, "") + "\"" == cur + TextOf(c, "");
  }

  lemma {:induction false} BodySplit(body: seq<Piece>, k: string)
    ensures BodyText(body, k) == BodyText(body, "") + k
  {
    if body == [] {
      assert "" + k == k;
    } else {
      BodySplit(body[1..], k);
      assert PieceText(body[0]) + (BodyText(body[1..], "") + k) == PieceText(body[0]) + BodyText(body[1..], "") + k;
    }
  }
}
