/** When sanitizing twice is sanitizing once (`inference.rs`): a condition on the text that goes in. */
module SanitizerTwice {
  import opened Text
  import opened Json
  import opened Scanner
  import opened ToolCall
  import opened Sanitizer
  import opened SanitizerText

  // ------------------------------------------------------------------- the guards

  const TAGS: set<string> := {RESULT_OPEN, RESULT_CLOSE, CALL_OPEN, CLOSE_TAG}

  /** Where a deletion can begin: an opening tag, or a catalog name with its colon. */
  ghost predicate Opening(w: string) { w == RESULT_OPEN || w == CALL_OPEN || exists t :: w == Label(t) }

  ghost predicate Word(w: string) { w in TAGS || exists t :: w == Label(t) }

  /** The first `k` characters of `w` stand at `i`, not inside an identifier when `w` begins with one. */
  predicate Stands(s: string, w: string, k: nat, i: nat) {
    && k <= |w| && OccursAt(s, w[..k], i)
    && (0 < k && IsIdentChar(w[0]) && 0 < i ==> !IsIdentChar(s[i - 1]))
  }

  ghost predicate PieceAt(s: string, i: nat) { exists w :: Opening(w) && Stands(s, w, |w|, i) }

  /** No tag and no catalog label is cut short by the beginning of another. */
  ghost predicate NotTorn(s: string) {
    forall w, k: nat, i: nat :: Word(w) && 0 < k < |w| && Stands(s, w, k, i) ==> !PieceAt(s, i + k)
  }

  lemma WordShape(w: string)
    requires Word(w)
    ensures w != "" && '\n' !in w
  {
    if t: ToolName :| w == Label(t) { RefIsIdent(t); }
  }

  lemma OpeningIsWord(w: string)
    requires Opening(w)
    ensures Word(w)
  {
  }

  // ---- a deletion is a prefix followed by something else

  /** What stands in a prefix stands in the whole, and the other way round for what ends inside it. */
  lemma StandsInPrefix(h: string, r: string, w: string, k: nat, i: nat)
    requires i + k <= |h| && k <= |w|
    ensures Stands(h + r, w, k, i) <==> Stands(h, w, k, i)
  {
    assert (h + r)[i..i + k] == h[i..i + k];
  }

  lemma StandsInRest(h: string, r: string, w: string, k: nat, i: nat)
    requires |h| <= i && Stands(h + r, w, k, i)
    ensures Stands(r, w, k, i - |h|)
  {
    assert (h + r)[i..i + k] == r[i - |h|..i - |h| + k];
  }

  /** A word that would cross the cut is torn before it. */
  lemma TornBefore(s: string, a: nat, r: string, w: string, k: nat, i: nat)
    requires NotTorn(s) && PieceAt(s, a) && a <= |s| && Word(w) && k <= |w|
    requires Stands(s[..a] + r, w, k, i)
    ensures i + k <= a || i >= a
  {
    hide Stands, Word, PieceAt;
    assert s[..a] + s[a..] == s;
    if i < a < i + k {
      Shorter(s[..a] + r, w, k, i, a - i);
      StandsInPrefix(s[..a], r, w, a - i, i);
      StandsInPrefix(s[..a], s[a..], w, a - i, i);
    }
  }

  lemma Shorter(s: string, w: string, k: nat, i: nat, j: nat)
    requires 0 < j <= k && Stands(s, w, k, i)
    ensures Stands(s, w, j, i)
  {
    assert w[..k][..j] == w[..j];
    assert s[i..i + k][..j] == s[i..i + j];
  }

  lemma PieceMoves(s: string, a: nat, r: string, x: nat)
    requires NotTorn(s) && PieceAt(s, a) && a <= |s| && PieceAt(s[..a] + r, x)
    ensures if x < a then PieceAt(s, x) else PieceAt(r, x - a)
  {
    hide Stands, NotTorn, Opening, Word;
    var h := s[..a];
    var w :| Opening(w) && Stands(h + r, w, |w|, x);
    OpeningIsWord(w);
    TornBefore(s, a, r, w, |w|, x);
    if x < a {
      StandsInPrefix(h, r, w, |w|, x);
      StandsInPrefix(h, s[a..], w, |w|, x);
      assert h + s[a..] == s;
    } else {
      StandsInRest(h, r, w, |w|, x);
    }
  }

  /** Cutting at a piece keeps the guard, whatever sound text follows the cut. */
  lemma CutKeeps(s: string, a: nat, r: string)
    requires NotTorn(s) && PieceAt(s, a) && a <= |s| && NotTorn(r)
    ensures NotTorn(s[..a] + r)
  {
    hide Stands, Opening, Word;
    var h := s[..a];
    forall w, k: nat, i: nat | Word(w) && 0 < k < |w| && Stands(h + r, w, k, i) ensures !PieceAt(h + r, i + k) {
      TornBefore(s, a, r, w, k, i);
      if i < a {
        StandsInPrefix(h, r, w, k, i);
        StandsInPrefix(h, s[a..], w, k, i);
        assert h + s[a..] == s;
      } else {
        StandsInRest(h, r, w, k, i);
      }
      if PieceAt(h + r, i + k) {
        PieceMoves(s, a, r, i + k);
        assert false;
      }
    }
  }

  /** Text after something that is not an identifier: nothing new stands in it. */
  lemma StandsInSuffix(s: string, b: nat, w: string, k: nat, i: nat)
    requires b <= |s| && (b > 0 ==> !IsIdentChar(s[b - 1])) && Stands(s[b..], w, k, i)
    ensures Stands(s, w, k, b + i)
  {
    assert s[b..][i..i + k] == s[b + i..b + i + k];
  }

  lemma PieceInSuffix(s: string, b: nat, i: nat)
    requires b <= |s| && (b > 0 ==> !IsIdentChar(s[b - 1])) && PieceAt(s[b..], i)
    ensures PieceAt(s, b + i)
  {
    hide Opening;
    var w :| Opening(w) && Stands(s[b..], w, |w|, i);
    StandsInSuffix(s, b, w, |w|, i);
  }

  lemma SuffixKeeps(s: string, b: nat)
    requires NotTorn(s) && b <= |s| && (b > 0 ==> !IsIdentChar(s[b - 1]))
    ensures NotTorn(s[b..])
  {
    hide Word, Stands, PieceAt;
    forall w, k: nat, i: nat | Word(w) && 0 < k < |w| && Stands(s[b..], w, k, i) ensures !PieceAt(s[b..], i + k) {
      StandsInSuffix(s, b, w, k, i);
      if PieceAt(s[b..], i + k) { PieceInSuffix(s, b, i + k); }
    }
  }

  // --------------------------------------------------------------- labels and lines

  /** The line from `j` on says something, opens no piece, and closes the object it begins with, if any. */
  ghost predicate LineSettled(s: string, j: nat)
    requires j <= |s|
  {
    var rest := TrimStart(LineRest(s[j..]));
    && rest != ""
    && (rest[0] == '{' ==> ObjectEnd(rest).Some?)
    && forall x: nat :: j <= x < j + |LineRest(s[j..])| ==> !PieceAt(s, x)
  }

  /** After every catalog label its own line settles whether it labels an object. */
  ghost predicate LabelsSettled(s: string) {
    forall t: ToolName, i: nat :: LabelAt(s, t, i) ==> i + |Label(t)| <= |s| && LineSettled(s, i + |Label(t)|)
  }

  lemma LineRestShape(s: string)
    ensures var r := LineRest(s); r <= s && '\n' !in r && (|r| < |s| ==> s[|r|] == '\n')
  {
    FindIsFirst(s, "\n");
    var r := LineRest(s);
    forall i | 0 <= i < |r| ensures r[i] != '\n' {
      if s[i] == '\n' {
        assert s[i..i + 1] == "\n";
        assert OccursAt(s, "\n", i);
      }
    }
    if |r| < |s| { assert s[|r|..|r| + 1][0] == s[|r|]; }
  }

  lemma LineRestIs(s: string, r: string)
    requires r <= s && '\n' !in r && (|r| < |s| ==> s[|r|] == '\n')
    ensures LineRest(s) == r
  {
    LineRestShape(s);
    var q := LineRest(s);
    assert forall i :: 0 <= i < |r| ==> s[i] == r[i] && r[i] != '\n';
    assert forall i :: 0 <= i < |q| ==> s[i] == q[i] && q[i] != '\n';
  }

  /** Cutting after the end of the line changes neither the line nor the pieces on it. */
  lemma LineKept(s: string, a: nat, r: string, j: nat)
    requires NotTorn(s) && PieceAt(s, a) && j <= a <= |s| && LineSettled(s, j)
    ensures LineSettled(s[..a] + r, j)
  {
    hide PieceAt, NotTorn;
    var line, t := LineRest(s[j..]), s[..a] + r;
    LineRestShape(s[j..]);
    PieceIsNoNewline(s, a);
    assert j + |line| < a;
    assert forall x: nat :: x < a - j ==> t[j..][x] == s[j..][x];
    assert line <= t[j..] && t[j..][|line|] == '\n';
    LineRestIs(t[j..], line);
    forall x: nat | j <= x < j + |line| ensures !PieceAt(t, x) {
      if PieceAt(t, x) { PieceMoves(s, a, r, x); }
    }
  }

  lemma PieceIsNoNewline(s: string, a: nat)
    requires PieceAt(s, a)
    ensures a < |s| && s[a] != '\n'
  {
    var w :| Opening(w) && Stands(s, w, |w|, a);
    WordShape(w);
    assert w[..|w|] == w && s[a..a + |w|][0] == w[0];
  }

  /** Cutting before the line changes neither. */
  lemma LineMoved(s: string, a: nat, r: string, j: nat)
    requires NotTorn(s) && PieceAt(s, a) && a <= |s| && j <= |r| && LineSettled(r, j)
    ensures LineSettled(s[..a] + r, a + j)
  {
    hide PieceAt, NotTorn;
    var t := s[..a] + r;
    assert t[a + j..] == r[j..];
    forall x: nat | a + j <= x < a + j + |LineRest(r[j..])| ensures !PieceAt(t, x) {
      if PieceAt(t, x) { PieceMoves(s, a, r, x); }
    }
  }

  lemma LabelStands(s: string, t: ToolName, i: nat)
    ensures LabelAt(s, t, i) <==> Stands(s, Label(t), |Label(t)|, i)
  {
    RefIsIdent(t);
    var w := Label(t);
    assert w[..|w|] == w && w[0] == t.Ref()[0];
  }

  lemma CutKeepsLabels(s: string, a: nat, r: string)
    requires NotTorn(s) && PieceAt(s, a) && a <= |s| && LabelsSettled(s) && LabelsSettled(r)
    ensures LabelsSettled(s[..a] + r)
  {
    hide Stands, PieceAt, NotTorn, LineSettled, Label, LabelAt;
    var u := s[..a] + r;
    assert s[..a] + s[a..] == s;
    forall t: ToolName, i: nat | LabelAt(u, t, i)
      ensures i + |Label(t)| <= |u| && LineSettled(u, i + |Label(t)|)
    {
      var w := Label(t);
      LabelStands(u, t, i);
      LabelStands(s, t, i);
      if i >= a { LabelStands(r, t, i - a); }
      TornBefore(s, a, r, w, |w|, i);
      if i < a {
        StandsInPrefix(s[..a], r, w, |w|, i);
        StandsInPrefix(s[..a], s[a..], w, |w|, i);
        assert LabelAt(s, t, i);
        LineKept(s, a, r, i + |w|);
      } else {
        StandsInRest(s[..a], r, w, |w|, i);
        assert LabelAt(r, t, i - a);
        LineMoved(s, a, r, i - a + |w|);
        assert a + (i - a + |w|) == i + |w|;
      }
    }
  }

  lemma SuffixKeepsLabels(s: string, b: nat)
    requires LabelsSettled(s) && b <= |s| && (b > 0 ==> !IsIdentChar(s[b - 1]))
    ensures LabelsSettled(s[b..])
  {
    hide Stands, PieceAt, Label, LabelAt;
    forall t: ToolName, i: nat | LabelAt(s[b..], t, i)
      ensures i + |Label(t)| <= |s[b..]| && LineSettled(s[b..], i + |Label(t)|)
    {
      LabelStands(s[b..], t, i);
      LabelStands(s, t, b + i);
      StandsInSuffix(s, b, Label(t), |Label(t)|, i);
      assert LabelAt(s, t, b + i);
      var j := i + |Label(t)|;
      assert s[b + j..] == s[b..][j..];
      forall x: nat | PieceAt(s[b..], x) ensures PieceAt(s, b + x) { PieceInSuffix(s, b, x); }
    }
  }

  // ------------------------------------------------------------- the first stages

  ghost predicate Sound(s: string) { NotTorn(s) && LabelsSettled(s) }

  /** Tags and the end of a tag. */
  predicate Markup(ws: seq<string>) { forall w :: w in ws ==> w in TAGS || w == ">" }

  lemma CutApart(s: string, a: nat, r: string, ws: seq<string>)
    requires NotTorn(s) && PieceAt(s, a) && a <= |s| && Markup(ws)
    ensures Apart(s[..a], r, ws)
  {
    hide NotTorn, PieceAt;
    forall w, i: nat | w in ws && i < a && OccursAt(s[..a] + r, w, i) ensures i + |w| <= a {
      if w != ">" {
        assert w[..|w|] == w && !IsIdentChar(w[0]);
        TornBefore(s, a, r, w, |w|, i);
      }
    }
  }

  /** A chain of tags across a cut was there before the cut. */
  lemma CutKeepsChains(s: string, a: nat, b: nat, r: string, ws: seq<string>) returns (k: nat)
    requires NotTorn(s) && PieceAt(s, a) && a <= b <= |s| && Markup(ws)
    requires Chain(s[..a] + r, ws)
    ensures k <= |ws| && Chain(s[..a], ws[..k]) && Chain(r, ws[k..])
    ensures Chain(s[b..], ws[k..]) ==> Chain(s, ws)
  {
    hide Chain, NotTorn, PieceAt, Markup, Apart;
    CutApart(s, a, r, ws);
    k := ChainSplit(s[..a], r, ws);
    if Chain(s[b..], ws[k..]) { ChainAround(s, a, b, ws, k); }
  }

  lemma ChainAround(s: string, a: nat, b: nat, ws: seq<string>, k: nat)
    requires a <= b <= |s| && k <= |ws| && Chain(s[..a], ws[..k]) && Chain(s[b..], ws[k..])
    ensures Chain(s, ws)
  {
    hide Chain;
    ChainAfter(s[a..b], s[b..], ws[k..]);
    ChainConcat(s[..a], s[a..b] + s[b..], ws[..k], ws[k..]);
    assert s[..a] + (s[a..b] + s[b..]) == s && ws[..k] + ws[k..] == ws;
  }

  predicate TagPair(open: string, close: string) {
    (open == RESULT_OPEN && close == RESULT_CLOSE) || (open == CALL_OPEN && close == CLOSE_TAG)
  }

  lemma SpanShape(s: string, open: string, close: string)
    requires TagPair(open, close) && FirstSpan(s, open, close).Some?
    ensures var r := FirstSpan(s, open, close).value;
            PieceAt(s, r.0) && s[r.1 - 1] == '>' && !Contains(s[..r.0], open)
  {
    hide Find;
    var (a, b) := FirstSpan(s, open, close).value;
    FindIsFirst(s, open);
    assert open[..|open|] == open;
    assert Stands(s, open, |open|, a);
    NotEarlier(s, open, a);
    var q := Find(s[a..], ">").value;
    var t := s[a + q + 1..];
    FindIsFirst(t, close);
    LastOf(t, close, Find(t, close).value);
  }

  lemma NotEarlier(s: string, w: string, a: nat)
    requires a <= |s| && forall j: nat :: j < a ==> !OccursAt(s, w, j)
    ensures w != "" ==> !Contains(s[..a], w)
  {
    forall i: nat | w != "" && i + |w| <= a ensures !OccursAt(s[..a], w, i) {
      assert s[..a][i..i + |w|] == s[i..i + |w|];
      assert !OccursAt(s, w, i);
    }
  }

  lemma LastOf(t: string, w: string, c: nat)
    requires w != "" && OccursAt(t, w, c)
    ensures t[c + |w| - 1] == w[|w| - 1]
  {
    assert t[c..c + |w|][|w| - 1] == t[c + |w| - 1];
  }

  lemma {:induction false} SpansKeep(s: string, open: string, close: string)
    requires TagPair(open, close) && Sound(s)
    ensures Sound(StripSpansOf(s, open, close))
    decreases |s|
  {
    hide NotTorn, LabelsSettled, PieceAt, FirstSpan;
    if FirstSpan(s, open, close).Some? {
      var (a, b) := FirstSpan(s, open, close).value;
      SpanShape(s, open, close);
      SuffixKeeps(s, b);
      SuffixKeepsLabels(s, b);
      SpansKeep(s[b..], open, close);
      CutKeeps(s, a, StripSpansOf(s[b..], open, close));
      CutKeepsLabels(s, a, StripSpansOf(s[b..], open, close));
    }
  }

  lemma {:induction false} SpansKeepChains(s: string, open: string, close: string, ws: seq<string>)
    requires TagPair(open, close) && NotTorn(s) && Markup(ws) && Chain(StripSpansOf(s, open, close), ws)
    ensures Chain(s, ws)
    decreases |s|
  {
    hide NotTorn, PieceAt, FirstSpan, Chain;
    if FirstSpan(s, open, close).Some? {
      var (a, b) := FirstSpan(s, open, close).value;
      SpanShape(s, open, close);
      var r := StripSpansOf(s[b..], open, close);
      var k := CutKeepsChains(s, a, b, r, ws);
      SuffixKeeps(s, b);
      SpansKeepChains(s[b..], open, close, ws[k..]);
    }
  }

  /** With no torn tag, one pass over the spans leaves no complete span. */
  lemma {:induction false} NoSpanLeft(s: string, open: string, close: string)
    requires TagPair(open, close) && NotTorn(s)
    ensures !Chain(StripSpansOf(s, open, close), [open, ">", close])
    decreases |s|
  {
    hide NotTorn, PieceAt, FirstSpan;
    SpanIff(s, open, close);
    if FirstSpan(s, open, close).Some? {
      var (a, b) := FirstSpan(s, open, close).value;
      SpanShape(s, open, close);
      var r := StripSpansOf(s[b..], open, close);
      SuffixKeeps(s, b);
      NoSpanLeft(s[b..], open, close);
      var ws := [open, ">", close];
      assert ws[0..] == ws;
      if Chain(s[..a] + r, ws) {
        var k := CutKeepsChains(s, a, b, r, ws);
        if k > 0 { HeadOccurs(s[..a], ws[..k]); }
      }
    }
  }

  lemma HeadOccurs(s: string, ws: seq<string>)
    requires ws != [] && ws[0] != "" && Chain(s, ws)
    ensures Contains(s, ws[0])
  {
    assert [ws[0]] + ws[1..] == ws;
    FindChain(s, ws[0], ws[1..]);
    FindIsFirst(s, ws[0]);
  }

  lemma {:induction false} FoundEcho(s: string, tools: seq<ToolName>, num: Decoder) 
    returns (t: ToolName, a: nat, e: nat)
    requires FirstEcho(s, tools, num).Some?
    ensures FirstEcho(s, tools, num) == Some((a, e)) && a < e <= |s|
    ensures OccursAt(s, t.Ref(), a) && EchoEnd(s, t.Ref(), a, num) == Some(e)
  {
    hide EchoEnd, ToolName.Ref;
    t := tools[0];
    RefNotEmpty(t);
    if SearchEcho(s, t.Ref(), 0, num).Some? {
      FoundSearch(s, t.Ref(), 0, num);
      var r := SearchEcho(s, t.Ref(), 0, num).value;
      a, e := r.0, r.1;
    } else {
      t, a, e := FoundEcho(s, tools[1..], num);
    }
  }

  lemma {:induction false} FoundSearch(s: string, name: string, from: nat, num: Decoder)
    requires name != "" && SearchEcho(s, name, from, num).Some?
    ensures var r := SearchEcho(s, name, from, num).value;
            OccursAt(s, name, r.0) && EchoEnd(s, name, r.0, num) == Some(r.1)
    decreases |s| - from
  {
    hide EchoEnd, FindFrom;
    FindFromIsFirst(s, name, from);
    var start := FindFrom(s, name, from).value;
    if EchoEnd(s, name, start, num).None? { FoundSearch(s, name, start + |name|, num); }
  }

  lemma EchoShape(s: string, num: Decoder)
    requires FirstEcho(s, ALL_TOOLS, num).Some?
    ensures var r := FirstEcho(s, ALL_TOOLS, num).value; PieceAt(s, r.0) && s[r.1 - 1] == '}'
  {
    hide FirstEcho, EchoEnd, ToolName.Ref, ObjectText, LineRest;
    var t, a, e := FoundEcho(s, ALL_TOOLS, num);
    EchoIff(s, t, a, e, num);
    var j: nat :| EchoAt(s, t, a, j, e, num);
    LabelStands(s, t, a);
    assert Opening(Label(t));
    ObjectLast(s[j..e], num);
  }

  lemma ObjectLast(o: string, num: Decoder)
    requires ObjectText(o, num)
    ensures o != "" && o[|o| - 1] == '}'
  {
    var c: Cst :| Loose(c) && c.CObj? && Strict(c, num) && Depth(c) <= MAX_DEPTH && o == TextOf(c, "");
    ObjectEnds(c);
  }

  lemma {:induction false} EchoesKeep(s: string, num: Decoder, ws: seq<string>)
    requires Sound(s) && Markup(ws)
    ensures Sound(StripEchoesOf(s, num))
    ensures Chain(StripEchoesOf(s, num), ws) ==> Chain(s, ws)
    decreases |s|
  {
    hide NotTorn, LabelsSettled, PieceAt, FirstEcho, Chain;
    if FirstEcho(s, ALL_TOOLS, num).Some? {
      var (a, b) := FirstEcho(s, ALL_TOOLS, num).value;
      EchoShape(s, num);
      SuffixKeeps(s, b);
      SuffixKeepsLabels(s, b);
      CutKeeps(s, a, s[b..]);
      CutKeepsLabels(s, a, s[b..]);
      EchoesKeep(s[..a] + s[b..], num, ws);
      if Chain(s[..a] + s[b..], ws) { var k := CutKeepsChains(s, a, b, s[b..], ws); }
    }
  }

  // ---------------------------------------------------- the clean-up makes no span

  lemma MarkupPlain(ws: seq<string>)
    requires Markup(ws)
    ensures forall w :: w in ws ==> w != "" && '\n' !in w
  {
  }

  lemma LineApart(x: string, tail: string, ws: seq<string>)
    requires Markup(ws) && (tail == "" || tail[0] == '\n')
    ensures Apart(x, tail, ws)
  {
    MarkupPlain(ws);
    forall w, i: nat | w in ws && i < |x| && OccursAt(x + tail, w, i) ensures i + |w| <= |x| {
      assert forall j :: 0 <= j < |w| ==> (x + tail)[i..i + |w|][j] == (x + tail)[i + j] == w[j] != '\n';
      assert tail != "" ==> (x + tail)[|x|] == (x + tail)[i + (|x| - i)] == '\n';
    }
  }

  /** Cutting a line down to `x` makes no chain, whatever is done to the lines after it. */
  lemma LineStep(pre: string, x: string, post: string, tail: string, more: string, ws: seq<string>) returns (k: nat)
    requires Markup(ws) && (tail == "" || tail[0] == '\n') && Chain(x + tail, ws)
    ensures k <= |ws| && Chain(tail, ws[k..]) && Markup(ws[k..])
    ensures Chain(more, ws[k..]) ==> Chain(pre + x + post + more, ws)
  {
    LineApart(x, tail, ws);
    k := ChainSplit(x, tail, ws);
    if Chain(more, ws[k..]) {
      ChainAfter(pre, x, ws[..k]);
      ChainAfter(post, more, ws[k..]);
      ChainConcat(pre + x, post + more, ws[..k], ws[k..]);
      assert pre + x + (post + more) == pre + x + post + more && ws[..k] + ws[k..] == ws;
    }
  }

  lemma LedStarts(lines: seq<string>)
    ensures Led(lines) == "" || Led(lines)[0] == '\n'
  {
  }

  lemma {:induction false} LinesOfChains(g: seq<string>, ws: seq<string>)
    requires Markup(ws) && Chain(Led(LinesOf(g)), ws)
    ensures Chain(Led(g), ws)
  {
    hide Chain;
    if |g| <= 1 {
      if LinesOf(g) == [] {
        ChainAfter(Led(g), "", ws);
        assert Led(g) + "" == Led(g);
      }
    } else {
      var tail := Led(LinesOf(g[1..]));
      assert LinesOf(g)[1..] == LinesOf(g[1..]);
      LedStarts(LinesOf(g[1..]));
      var cr := if StripCr(g[0]) == g[0] then "" else "\r";
      assert StripCr(g[0]) + cr == g[0];
      var k := LineStep("", "\n" + StripCr(g[0]), cr, tail, Led(g[1..]), ws);
      LinesOfChains(g[1..], ws[k..]);
      assert "" + ("\n" + StripCr(g[0])) + cr == "\n" + g[0];
    }
  }

  lemma {:induction false} KeepChains(lines: seq<string>, num: Decoder, ws: seq<string>)
    requires Markup(ws) && Chain(Led(KeepLines(lines, num)), ws)
    ensures Chain(Led(lines), ws)
  {
    hide Chain, IsLeak;
    if lines != [] {
      var kept := KeepLines(lines[1..], num);
      if IsLeak(Trim(lines[0]), num) {
        KeepChains(lines[1..], num, ws);
        ChainAfter("\n" + lines[0], Led(lines[1..]), ws);
      } else {
        assert ([lines[0]] + kept)[1..] == kept;
        LedStarts(kept);
        var k := LineStep("", "\n" + lines[0], "", Led(kept), Led(lines[1..]), ws);
        KeepChains(lines[1..], num, ws[k..]);
        assert "" + ("\n" + lines[0]) + "" == "\n" + lines[0];
      }
    }
  }

  lemma {:induction false} CollapseChains(lines: seq<string>, out: string, prevBlank: bool, ws: seq<string>)
    requires Markup(ws) && Chain(CollapseFrom(lines, out, prevBlank), ws)
    ensures Chain(out + Led(lines), ws)
    decreases |lines|
  {
    hide Chain;
    if lines == [] {
      assert out + "" == out;
    } else {
      var head, tail := "\n" + lines[0], Led(lines[1..]);
      var blank := Trim(lines[0]) == "";
      LedStarts(lines[1..]);
      if blank && prevBlank {
        CollapseChains(lines[1..], out, prevBlank, ws);
        var k := LineStep("", out, head, tail, tail, ws);
        assert "" + out + head + tail == out + (head + tail);
      } else {
        var x := out + (if out == "" then "" else "\n") + TrimEnd(lines[0]);
        CollapseChains(lines[1..], x, blank, ws);
        TrimEndShape(lines[0]);
        var post := lines[0][|TrimEnd(lines[0])|..];
        var k := LineStep(if out == "" then "\n" else "", x, post, tail, tail, ws);
        Reassemble(out, TrimEnd(lines[0]), post, lines[0], tail);
      }
    }
  }

  lemma Reassemble(out: string, kept: string, post: string, line: string, tail: string)
    requires kept + post == line
    ensures (if out == "" then "\n" else "") + (out + (if out == "" then "" else "\n") + kept) + post + tail
            == out + ("\n" + line + tail)
  {
  }

  lemma Unled(x: string, ws: seq<string>)
    requires Markup(ws) && Chain("\n" + x, ws)
    ensures Chain(x, ws)
  {
    assert ("\n" + x)[1..] == x;
    MarkupPlain(ws);
    if ws != [] {
      assert ws[0] in ws;
      NotFirst(x, ws[0]);
    }
  }

  lemma NotFirst(x: string, w: string)
    requires w != "" && '\n' !in w
    ensures !StartsWith("\n" + x, w)
  {
    assert w[0] in w;
    if |w| <= |"\n" + x| { assert ("\n" + x)[..|w|][0] == '\n'; }
  }

  lemma TrimChains(s: string, ws: seq<string>)
    requires Chain(Trim(s), ws)
    ensures Chain(s, ws)
  {
    TrimStartShape(s);
    TrimEndShape(TrimStart(s));
    var t := TrimStart(s);
    var n, m := |s| - |t|, |Trim(s)|;
    ChainConcat(t[..m], t[m..], ws, []);
    assert t[..m] + t[m..] == t && ws + [] == ws;
    ChainAfter(s[..n], t, ws);
    assert s[..n] + s[n..] == s;
  }

  lemma JoinChains(x: string, num: Decoder, ws: seq<string>)
    requires Markup(ws) && Chain(JoinLines(KeepLines(Lines(x), num)), ws)
    ensures Chain(x, ws)
  {
    hide Chain;
    var kept := KeepLines(Lines(x), num);
    if kept == [] {
      ChainAfter(x, "", ws);
      assert x + "" == x;
    } else {
      LedJoin(kept);
      ChainAfter("\n", JoinLines(kept), ws);
      KeepChains(Lines(x), num, ws);
      LinesOfChains(Segs(x), ws);
      SegsJoin(x);
      Unled(x, ws);
    }
  }

  lemma TidyChains(x: string, num: Decoder, ws: seq<string>)
    requires Markup(ws) && Chain(TidyLines(x, num), ws)
    ensures Chain(x, ws)
  {
    hide Chain;
    var j := JoinLines(KeepLines(Lines(x), num));
    TrimChains(CollapseFrom(Lines(j), "", false), ws);
    CollapseChains(Lines(j), "", false, ws);
    assert "" + Led(Lines(j)) == Led(Lines(j));
    LinesOfChains(Segs(j), ws);
    SegsJoin(j);
    Unled(j, ws);
    JoinChains(x, num, ws);
  }

  // ------------------------------------------------ the clean-up makes no fragment

  /** `line` is the line of `s` that starts at `o`. */
  predicate LineAt(s: string, o: nat, line: string) {
    && OccursAt(s, line, o) && (o == 0 || (o <= |s| && s[o - 1] == '\n')) && '\n' !in line
    && (o + |line| == |s| || s[o + |line|] == '\n')
  }

  lemma SegsSplit(s: string)
    ensures var r := LineRest(s);
            Segs(s) == if |r| == |s| then [s] else [r] + Segs(s[|r| + 1..])
  {
    LineRestShape(s);
    var r := LineRest(s);
    SegsPlain(r);
    if |r| < |s| {
      SegsConcat(r, s[|r| + 1..]);
      assert s == r + ("\n" + s[|r| + 1..]);
    }
  }

  lemma LineLater(s: string, n: nat, o: nat, line: string)
    requires n < |s| && s[n] == '\n' && LineAt(s[n + 1..], o, line)
    ensures LineAt(s, n + 1 + o, line)
  {
    assert s[n + 1..][o..o + |line|] == s[n + 1 + o..n + 1 + o + |line|];
  }

  lemma FirstLine(s: string)
    ensures var n := |LineRest(s)|;
            && LineRest(s) in Segs(s) && LineAt(s, 0, LineRest(s)) && (n < |s| ==> s[n] == '\n')
            && (forall line :: line in Segs(s) <==> line == LineRest(s) || (n < |s| && line in Segs(s[n + 1..])))
  {
    hide Segs, LineRest;
    SegsSplit(s);
    LineRestShape(s);
    var r := LineRest(s);
    assert s[..|r|] == r == s[0..|r|] && (|r| == |s| ==> r == s);
    if |r| < |s| {
      assert Segs(s) == [r] + Segs(s[|r| + 1..]) && Segs(s)[0] == r;
    } else {
      assert Segs(s) == [r] && Segs(s)[0] == r;
    }
  }

  lemma {:induction false} LineOf(s: string, a: nat) returns (o: nat, line: string)
    requires a < |s| && s[a] != '\n'
    ensures line in Segs(s) && LineAt(s, o, line) && o <= a < o + |line|
    decreases |s|
  {
    hide Segs, LineRest, LineAt;
    FirstLine(s);
    line, o := LineRest(s), 0;
    var n := |line|;
    if a >= n {
      var later := s[n + 1..];
      o, line := LineOf(later, a - n - 1);
      LineLater(s, n, o, line);
      o := n + 1 + o;
    }
  }

  lemma {:induction false} LineStart(s: string, line: string) returns (o: nat)
    requires line in Segs(s)
    ensures LineAt(s, o, line)
    decreases |s|
  {
    hide Segs, LineRest, LineAt;
    FirstLine(s);
    o := 0;
    var n := |LineRest(s)|;
    if line != LineRest(s) {
      o := LineStart(s[n + 1..], line);
      LineLater(s, n, o, line);
      o := n + 1 + o;
    }
  }

  lemma LabelShape(t: ToolName)
    ensures var w := Label(t); |w| > 1 && !IsSpace(w[0]) && !IsSpace(w[|w| - 1]) && '\n' !in w
  {
    RefIsIdent(t);
  }

  lemma SolidInside(p: string, core: string, q: string, i: nat)
    requires AllSpace(p) && AllSpace(q) && i < |p + core + q| && !IsSpace((p + core + q)[i])
    ensures |p| <= i < |p + core|
  {
  }

  /** A word that begins and ends with something solid lies in the trimmed part. */
  lemma WordInCore(p: string, core: string, q: string, w: string, i: nat) returns (u: string, v: string)
    requires AllSpace(p) && AllSpace(q) && OccursAt(p + core + q, w, i)
    requires w != "" && !IsSpace(w[0]) && !IsSpace(w[|w| - 1])
    ensures core == u + w + v && i == |p| + |u|
  {
    var x := p + core + q;
    assert x[i] == x[i..i + |w|][0] && x[i + |w| - 1] == x[i..i + |w|][|w| - 1];
    SolidInside(p, core, q, i);
    SolidInside(p, core, q, i + |w| - 1);
    u, v := core[..i - |p|], core[i - |p| + |w|..];
    assert x[i..i + |w|] == core[i - |p|..i - |p| + |w|];
  }

  lemma SliceOf(s: string, line: string, o: nat, i: nat, n: nat)
    requires OccursAt(s, line, o) && i + n <= |line|
    ensures s[o + i..o + i + n] == line[i..i + n]
    ensures 0 < i ==> s[o + i - 1] == line[i - 1]
  {
    var whole := s[o..o + |line|];
    assert whole == line;
    assert forall j :: 0 <= j < |line| ==> whole[j] == s[o + j];
    assert line[i..i + n] == s[o + i..o + i + n];
  }

  lemma WithinLine(s: string, o: nat, line: string, w: string, a: nat)
    requires LineAt(s, o, line) && o <= a < o + |line| && OccursAt(s, w, a) && '\n' !in w
    ensures OccursAt(line, w, a - o)
  {
    var end := o + |line|;
    forall x | a <= x < a + |w| ensures s[x] != '\n' {
      assert s[x] == s[a..a + |w|][x - a] == w[x - a];
      assert w[x - a] in w;
    }
    assert a + |w| <= end;
    SliceOf(s, line, o, a - o, |w|);
  }

  lemma RestOfLine(s: string, o: nat, line: string, before: string, after: string)
    requires LineAt(s, o, line) && line == before + after
    ensures o + |before| <= |s| && LineRest(s[o + |before|..]) == after
  {
    var r := s[o + |before|..];
    SliceOf(s, line, o, |before|, |after|);
    assert r[..|after|] == line[|before|..] == after;
    LineRestIs(r, after);
  }

  /** A label's line: what precedes it on the line and what follows, up to white space. */
  lemma LabelLine(s: string, t: ToolName, a: nat) returns (line: string, u: string, v: string, q: string)
    requires LabelAt(s, t, a)
    ensures line in Segs(s) && Trim(line) == u + Label(t) + v
    ensures u != "" ==> !IsIdentChar(u[|u| - 1])
    ensures AllSpace(q) && LineRest(s[a + |Label(t)|..]) == v + q
  {
    hide Segs, Trim, LineRest, AllSpace, Label, IsSpace, IsIdentChar, LineAt;
    var o: nat, p: string;
    var w := Label(t);
    LabelShape(t);
    HeadOf(s, w, a);
    o, line := LineOf(s, a);
    WithinLine(s, o, line, w, a);
    p, q := TrimParts(line);
    u, v := WordInCore(p, Trim(line), q, w, a - o);
    Regroup(p, u, w, v, q);
    RestOfLine(s, o, line, p + u + w, v + q);
    if u != "" { LineHolds(s, o, line, |p| + |u|); }
  }

  lemma HeadOf(s: string, w: string, a: nat)
    requires w != "" && OccursAt(s, w, a)
    ensures s[a] == w[0]
  {
    assert s[a..a + |w|][0] == s[a];
  }

  lemma LineHolds(s: string, o: nat, line: string, i: nat)
    requires LineAt(s, o, line) && 0 < i <= |line|
    ensures s[o + i - 1] == line[i - 1]
  {
    SliceOf(s, line, o, i, 0);
  }

  lemma Regroup(p: string, u: string, w: string, v: string, q: string)
    ensures p + (u + w + v) + q == p + u + w + (v + q)
    ensures var line := p + u + w + (v + q);
            && line[|p| + |u|..|p| + |u| + |w|] == w
            && (u != "" ==> line[|p| + |u| - 1] == u[|u| - 1])
            && (u == "" && p != "" ==> line[|p| - 1] == p[|p| - 1])
  {
  }

  /** The same words on a line of another text make a label there. */
  lemma LabelOnLine(s: string, t: ToolName, line: string, u: string, v: string) returns (a: nat, q: string)
    requires line in Segs(s) && Trim(line) == u + Label(t) + v && (u != "" ==> !IsIdentChar(u[|u| - 1]))
    ensures LabelAt(s, t, a) && AllSpace(q) && LineRest(s[a + |Label(t)|..]) == v + q
  {
    hide Segs, Trim, LineRest, Label, IsIdentChar, IsSpace, AllSpace, LineAt;
    var w := Label(t);
    var p: string;
    var o := LineStart(s, line);
    p, q := TrimParts(line);
    a := o + |p| + |u|;
    Regroup(p, u, w, v, q);
    RestOfLine(s, o, line, p + u + w, v + q);
    OccursOn(s, o, line, |p| + |u|, w);
    LabelNotInside(s, o, line, p, u);
  }

  lemma OccursOn(s: string, o: nat, line: string, i: nat, w: string)
    requires LineAt(s, o, line) && OccursAt(line, w, i)
    ensures OccursAt(s, w, o + i)
  {
    SliceOf(s, line, o, i, |w|);
  }

  lemma LabelNotInside(s: string, o: nat, line: string, p: string, u: string)
    requires LineAt(s, o, line) && p + u <= line && AllSpace(p) && (u != "" ==> !IsIdentChar(u[|u| - 1]))
    ensures 0 < o + |p + u| ==> !IsIdentChar(s[o + |p + u| - 1])
  {
    var n := |p + u|;
    if 0 < n {
      SliceOf(s, line, o, n, 0);
      assert line[n - 1] == (p + u)[n - 1];
      assert u == "" ==> (p + u)[n - 1] == p[n - 1];
    }
  }

  // -- what follows a label

  /** White space, an object and white space. */
  ghost predicate LabelsObject(v: string, n: nat, m: nat, num: Decoder) {
    n <= m <= |v| && AllSpace(v[..n]) && ObjectText(v[n..m], num) && AllSpace(v[m..])
  }

  /** The same where only the object's last line must end so. */
  ghost predicate TailEcho(x: string, n: nat, m: nat, num: Decoder) {
    n <= m <= |x| && AllSpace(x[..n]) && ObjectText(x[n..m], num) && AllSpace(LineRest(x[m..]))
  }

  lemma TailIff(s: string, t: ToolName, a: nat, n: nat, m: nat, num: Decoder)
    requires LabelAt(s, t, a)
    ensures var after := a + |Label(t)|;
            EchoAt(s, t, a, after + n, after + m, num) <==> TailEcho(s[after..], n, m, num)
  {
    hide ObjectText, AllSpace, LineRest, Label, LabelAt;
    LabelInside(s, t, a);
    var after := a + |Label(t)|;
    var x := s[after..];
    if n <= m <= |x| {
      assert x[..n] == s[after..after + n] && x[n..m] == s[after + n..after + m] && x[m..] == s[after + m..];
    }
  }

  lemma LabelInside(s: string, t: ToolName, a: nat)
    requires LabelAt(s, t, a)
    ensures a + |Label(t)| <= |s|
  {
  }

  lemma SpaceParts(x: string, q: string)
    ensures AllSpace(x + q) <==> AllSpace(x) && AllSpace(q)
  {
    assert forall i :: 0 <= i < |x| ==> (x + q)[i] == x[i];
    assert forall i :: 0 <= i < |q| ==> (x + q)[|x| + i] == q[i];
  }

  lemma LineTail(v: string, q: string, k: string, m: nat)
    requires m <= |v| && '\n' !in v + q && (k == "" || k[0] == '\n')
    ensures LineRest((v + q + k)[m..]) == v[m..] + q
  {
    var x, r := (v + q + k)[m..], v[m..] + q;
    assert x == r + k;
    assert forall c :: c in r ==> c in v + q;
    LineRestIs(x, r);
  }

  lemma TailBack(v: string, q: string, k: string, n: nat, m: nat, num: Decoder)
    requires '\n' !in v + q && (k == "" || k[0] == '\n') && AllSpace(q) && LabelsObject(v, n, m, num)
    ensures TailEcho(v + q + k, n, m, num)
  {
    hide ObjectText, LineRest, AllSpace;
    LineTail(v, q, k, m);
    SpaceParts(v[m..], q);
    Slices2(v, q + k, n, m);
    assert v + (q + k) == v + q + k;
  }

  lemma Slices2(v: string, k: string, n: nat, m: nat)
    requires n <= m <= |v|
    ensures (v + k)[..n] == v[..n] && (v + k)[n..m] == v[n..m] && (v + k)[n..] == v[n..] + k
  {
  }

  /** The first solid character, sought in `v` with white space after it. */
  lemma FirstSolid(v: string, q: string) returns (n: nat)
    requires AllSpace(q) && TrimStart(v + q) != ""
    ensures n < |v| && AllSpace(v[..n]) && !IsSpace(v[n]) && TrimStart(v + q) == v[n..] + q
  {
    TrimStartShape(v + q);
    n := |v + q| - |TrimStart(v + q)|;
    assert (v + q)[n] == TrimStart(v + q)[0];
    SolidInside("", v, q, n);
    assert "" + v + q == v + q;
    assert (v + q)[..n] == v[..n] && (v + q)[n..] == v[n..] + q;
  }

  lemma SolidStart(x: string, n: nat, i: nat)
    requires n < |x| && i < |x| && AllSpace(x[..n]) && AllSpace(x[..i]) && !IsSpace(x[n]) && !IsSpace(x[i])
    ensures n == i
  {
    assert forall j :: 0 <= j < n ==> x[..n][j] == x[j];
    assert forall j :: 0 <= j < i ==> x[..i][j] == x[j];
  }

  lemma ObjectBegins(o: string, num: Decoder)
    requires ObjectText(o, num)
    ensures o != "" && o[0] == '{'
  {
    var c: Cst :| Loose(c) && c.CObj? && Strict(c, num) && Depth(c) <= MAX_DEPTH && o == TextOf(c, "");
    ObjectEnds(c);
  }

  /** An object that closes before white space closes at the same place before anything. */
  lemma SameEnd(y: string, q: string, k: string) returns (len: nat)
    requires AllSpace(q) && ObjectEnd(y + q).Some?
    ensures len <= |y| && ObjectEnd(y + k) == Some(len)
  {
    hide ObjectEnd;
    len := ObjectEnd(y + q).value;
    EndsWithBrace(y + q, len);
    SolidInside("", y, q, len - 1);
    assert "" + y + q == y + q;
    EndInPrefix(y + q, len);
    assert (y + q)[..len] == y[..len];
    assert (y + k)[..len] == y[..len];
    ObjectEndStable(y[..len], y + k);
  }

  lemma EndsWithBrace(s: string, n: nat)
    requires ObjectEnd(s) == Some(n)
    ensures 0 < n <= |s| && s[n - 1] == '}'
  {
    ClosingEnds(s, Scan(0, Outside), BRACES);
  }

  /** On a settled line, a fragment ends on that line. */
  lemma TailOnLine(v: string, q: string, k: string, q': string, n: nat, m: nat, num: Decoder)
    requires '\n' !in v + q && (k == "" || k[0] == '\n') && AllSpace(q) && AllSpace(q')
    requires TailEcho(v + q + k, n, m, num)
    requires var r := TrimStart(v + q'); r != "" && (r[0] == '{' ==> ObjectEnd(r).Some?)
    ensures LabelsObject(v, n, m, num)
  {
    hide ObjectText, ObjectEnd, LineRest, AllSpace, IsSpace, TrimStart;
    var x := v + q + k;
    assert x == v + (q + k);
    var i := FirstSolid(v, q');
    ObjectBegins(x[n..m], num);
    BraceIsSolid();
    assert x[n] == x[n..m][0] == '{' && x[i] == v[i];
    Slices2(v, q + k, i, i);
    SolidStart(x, n, i);
    Slices2(v, q + k, n, n);
    var len := SameEnd(v[n..], q', q + k);
    ObjectIff(x[n..], m - n, num);
    assert x[n..][..m - n] == x[n..m];
    assert m == n + len;
    Slices2(v, q + k, n, m);
    LineTail(v, q, k, m);
    SpaceParts(v[m..], q);
  }

  lemma BraceIsSolid()
    ensures !IsSpace('{')
  {
  }

  // ------------------------------------------------------------------- the theorem

  /** On a sound text, whatever fragment is on a line of the cleaned-up text was there before. */
  lemma EchoWasThere(x: string, out: string, t: ToolName, a: nat, num: Decoder)
    requires LabelsSettled(x) && RemovableAt(out, t, a, num)
    requires forall line :: line in Segs(out) && Trim(line) != "" ==> exists l :: l in Segs(x) && Trim(l) == Trim(line)
    ensures exists b: nat :: RemovableAt(x, t, b, num)
  {
    hide EchoEnd, Segs, Trim, TrimStart, LineRest, Label, ObjectEnd, AllSpace, PieceAt, LabelAt, TailEcho,
      LabelsObject, RemovableAt;
    var j: nat, e: nat := EchoPlace(out, t, a, num);
    LabelInside(out, t, a);
    var after := a + |Label(t)|;
    var line, u, v, q := LabelLine(out, t, a);
    LabelShape(t);
    assert Trim(line) != "";
    var l :| l in Segs(x) && Trim(l) == Trim(line);
    var b, q' := LabelOnLine(x, t, l, u, v);
    LabelInside(x, t, b);
    assert LineSettled(x, b + |Label(t)|);
    var n, m := j - after, e - after;
    TailIff(out, t, a, n, m, num);
    var k := AfterLine(out[after..], v + q);
    TailOnLine(v, q, k, q', n, m, num);
    var k' := AfterLine(x[b + |Label(t)|..], v + q');
    TailBack(v, q', k', n, m, num);
    TailIff(x, t, b, n, m, num);
    EchoIff(x, t, b, b + |Label(t)| + m, num);
    Removes(x, t, b, b + |Label(t)| + m, num);
  }

  lemma EchoPlace(s: string, t: ToolName, a: nat, num: Decoder) returns (j: nat, e: nat)
    requires RemovableAt(s, t, a, num)
    ensures EchoAt(s, t, a, j, e, num)
  {
    e := EchoEnd(s, t.Ref(), a, num).value;
    EchoIff(s, t, a, e, num);
    j :| EchoAt(s, t, a, j, e, num);
  }

  lemma Removes(s: string, t: ToolName, a: nat, e: nat, num: Decoder)
    requires OccursAt(s, t.Ref(), a) && EchoEnd(s, t.Ref(), a, num) == Some(e)
    ensures RemovableAt(s, t, a, num)
  {
  }

  lemma AfterLine(x: string, r: string) returns (k: string)
    requires LineRest(x) == r
    ensures x == r + k && '\n' !in r && (k == "" || k[0] == '\n')
  {
    LineRestShape(x);
    k := x[|r|..];
  }

  lemma StagesKeep(text: string, num: Decoder)
    requires Sound(text)
    ensures var x := StripEchoesOf(StripTags(text), num);
            && LabelsSettled(x) && !Chain(x, [RESULT_OPEN, ">", RESULT_CLOSE]) && !Chain(x, [CALL_OPEN, ">", CLOSE_TAG])
  {
    hide NotTorn, LabelsSettled, Chain, StripSpansOf, StripEchoesOf;
    var results, calls := [RESULT_OPEN, ">", RESULT_CLOSE], [CALL_OPEN, ">", CLOSE_TAG];
    var t1 := StripSpansOf(text, RESULT_OPEN, RESULT_CLOSE);
    var t2 := StripSpansOf(t1, CALL_OPEN, CLOSE_TAG);
    SpansKeep(text, RESULT_OPEN, RESULT_CLOSE);
    NoSpanLeft(text, RESULT_OPEN, RESULT_CLOSE);
    SpansKeep(t1, CALL_OPEN, CLOSE_TAG);
    NoSpanLeft(t1, CALL_OPEN, CLOSE_TAG);
    if Chain(t2, results) { SpansKeepChains(t1, CALL_OPEN, CLOSE_TAG, results); }
    EchoesKeep(t2, num, results);
    EchoesKeep(t2, num, calls);
  }

  lemma LinesCome(x: string, num: Decoder)
    ensures forall line :: line in Segs(TidyLines(x, num)) && Trim(line) != "" ==>
              exists l :: l in Segs(x) && Trim(l) == Trim(line)
  {
    hide TidyLines, Segs, IsLeak, Trim;
    var cores := set l | l in Segs(x) :: Trim(l);
    TrimNothing();
    TidyLinesKeep(x, num, core => core == "" || core in cores);
  }

  lemma TrimNothing()
    ensures Trim("") == ""
  {
  }

  /** A text in which no tag or catalog label is cut short by the beginning of another, and in which every
      catalog label is followed on its own line by something that opens no other piece and, if it begins an
      object, closes it, is sanitized in one pass: a second pass changes nothing. */
  lemma IdempotentWhen(text: string, num: Decoder)
    requires NotTorn(text) && LabelsSettled(text)
    ensures SanitizeProse(SanitizeProse(text, num), num) == SanitizeProse(text, num)
  {
    hide NotTorn, LabelsSettled, Chain, TidyLines, StripTags, StripEchoesOf, RemovableAt, Segs, Trim, FirstSpan;
    var x := StripEchoesOf(StripTags(text), num);
    var once := SanitizeProse(text, num);
    StagesKeep(text, num);
    var results, calls := [RESULT_OPEN, ">", RESULT_CLOSE], [CALL_OPEN, ">", CLOSE_TAG];
    SpanIff(once, RESULT_OPEN, RESULT_CLOSE);
    SpanIff(once, CALL_OPEN, CLOSE_TAG);
    if Chain(once, results) { TidyChains(x, num, results); }
    if Chain(once, calls) { TidyChains(x, num, calls); }
    StripEchoesLeavesNone(StripTags(text), num);
    LinesCome(x, num);
    forall t: ToolName, a: nat ensures !RemovableAt(once, t, a, num) {
      if RemovableAt(once, t, a, num) { EchoWasThere(x, once, t, a, num); }
    }
    IdempotentIff(text, num);
  }
}
