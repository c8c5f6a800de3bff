/** What the sanitizer's searches find (`inference.rs`), said of the text alone: a complete span is three
    words in order, a removable fragment is a label, an object and the end of a line. */
module SanitizerText {
  import opened Text
  import opened Json
  import opened Scanner
  import opened ToolCall
  import opened Sanitizer

  // -------------------------------------------------------------- words in order

  /** The words occur in `s` one after the other, without overlap. */
  predicate Chain(s: string, ws: seq<string>)
    decreases |s|, |ws|
  {
    || ws == []
    || (ws[0] != "" && StartsWith(s, ws[0]) && Chain(s[|ws[0]|..], ws[1..]))
    || (s != "" && Chain(s[1..], ws))
  }

  lemma {:induction false} ChainAfter(pre: string, s: string, ws: seq<string>)
    requires Chain(s, ws)
    ensures Chain(pre + s, ws)
  {
    if pre == "" {
      assert pre + s == s;
    } else {
      ChainAfter(pre[1..], s, ws);
      assert (pre + s)[1..] == pre[1..] + s;
    }
  }

  lemma {:induction false} ChainConcat(a: string, b: string, u: seq<string>, v: seq<string>)
    requires Chain(a, u) && Chain(b, v)
    ensures Chain(a + b, u + v)
    decreases |a|, |u|
  {
    if u == [] {
      assert u + v == v;
      ChainAfter(a, b, v);
    } else if u[0] != "" && StartsWith(a, u[0]) && Chain(a[|u[0]|..], u[1..]) {
      ChainConcat(a[|u[0]|..], b, u[1..], v);
      Splice(a, b, |u[0]|);
      assert (u + v)[1..] == u[1..] + v;
    } else {
      ChainConcat(a[1..], b, u, v);
      Splice(a, b, 1);
    }
  }

  lemma Splice(a: string, b: string, n: nat)
    requires n <= |a|
    ensures (a + b)[..n] == a[..n] && (a + b)[n..] == a[n..] + b
  {
  }

  /** No word of `ws` begins in `a` and ends in `b`. */
  ghost predicate Apart(a: string, b: string, ws: seq<string>) {
    forall w, i: nat :: w in ws && i < |a| && OccursAt(a + b, w, i) ==> i + |w| <= |a|
  }

  lemma ApartTail(a: string, b: string, ws: seq<string>, n: nat)
    requires Apart(a, b, ws) && n <= |a|
    ensures Apart(a[n..], b, ws)
  {
    Splice(a, b, n);
    forall w, i: nat | w in ws && i < |a[n..]| && OccursAt(a[n..] + b, w, i) ensures i + |w| <= |a[n..]| {
      assert (a + b)[n + i..n + i + |w|] == (a + b)[n..][i..i + |w|];
      assert OccursAt(a + b, w, n + i);
    }
  }

  lemma {:induction false} ChainSplit(a: string, b: string, ws: seq<string>) returns (k: nat)
    requires Chain(a + b, ws) && Apart(a, b, ws)
    ensures k <= |ws| && Chain(a, ws[..k]) && Chain(b, ws[k..])
    decreases |a|, |ws|
  {
    var s := a + b;
    if ws == [] || a == "" {
      k := 0;
      assert ws[..0] == [] && ws[0..] == ws && (a == "" ==> s == b);
    } else if ws[0] != "" && StartsWith(s, ws[0]) && Chain(s[|ws[0]|..], ws[1..]) {
      var n := |ws[0]|;
      assert OccursAt(s, ws[0], 0);
      Splice(a, b, n);
      ApartTail(a, b, ws, n);
      assert forall w :: w in ws[1..] ==> w in ws;
      k := ChainSplit(a[n..], b, ws[1..]);
      k := k + 1;
      assert ws[..k][1..] == ws[1..][..k - 1] && ws[k..] == ws[1..][k - 1..];
    } else {
      Splice(a, b, 1);
      ApartTail(a, b, ws, 1);
      k := ChainSplit(a[1..], b, ws);
    }
  }

  // ------------------------------------------------------------ spans as chains

  /** Looking for the first word first loses nothing. */
  lemma {:induction false} FindChain(s: string, w: string, ws: seq<string>)
    requires w != ""
    ensures Chain(s, [w] + ws) <==> Find(s, w).Some? && Chain(s[Find(s, w).value + |w|..], ws)
    decreases |s|
  {
    hide Find;
    var all := [w] + ws;
    assert all[1..] == ws;
    FindIsFirst(s, w);
    if Find(s, w).Some? && Chain(s[Find(s, w).value + |w|..], ws) { ChainFrom(s, w, ws, Find(s, w).value); }
    if Chain(s, all) {
      if StartsWith(s, w) {
        FoundAt(s, w, 0);
        if !Chain(s[|w|..], ws) { FindLater(s, w, ws); }
      } else {
        FindChain(s[1..], w, ws);
        FindSkip(s, 1, w);
        assert s[1..][Find(s[1..], w).value + |w|..] == s[Find(s, w).value + |w|..];
      }
    }
  }

  lemma ChainFrom(s: string, w: string, ws: seq<string>, p: nat)
    requires w != "" && OccursAt(s, w, p) && Chain(s[p + |w|..], ws)
    ensures Chain(s, [w] + ws)
  {
    var t := s[p..];
    assert ([w] + ws)[1..] == ws && t[..|w|] == s[p..p + |w|] && t[|w|..] == s[p + |w|..];
    assert Chain(t, [w] + ws);
    ChainAfter(s[..p], t, [w] + ws);
    assert s[..p] + t == s;
  }

  lemma FindLater(s: string, w: string, ws: seq<string>)
    requires w != "" && s != "" && Chain(s[1..], [w] + ws) && StartsWith(s, w)
    ensures Chain(s[|w|..], ws)
    decreases |s|, 0
  {
    FindChain(s[1..], w, ws);
    var p := Find(s[1..], w).value;
    var q := 1 + p + |w|;
    assert s[1..][p + |w|..] == s[q..];
    ChainAfter(s[|w|..q], s[q..], ws);
    assert s[|w|..q] + s[q..] == s[|w|..];
  }

  lemma OccursLater(s: string, n: nat, w: string, j: nat)
    requires n <= |s|
    ensures OccursAt(s[n..], w, j) <==> OccursAt(s, w, n + j)
  {
    if n + j + |w| <= |s| { assert s[n..][j..j + |w|] == s[n + j..n + j + |w|]; }
  }

  /** Skipping `n` positions where the word does not occur. */
  lemma FindSkip(s: string, n: nat, w: string)
    requires n <= |s| && forall j: nat :: j < n ==> !OccursAt(s, w, j)
    ensures Find(s, w) == Shift(n, Find(s[n..], w))
  {
    hide Find, OccursAt;
    var t := s[n..];
    FindIsFirst(s, w);
    FindIsFirst(t, w);
    forall j: nat ensures OccursAt(t, w, j) <==> OccursAt(s, w, n + j) { OccursLater(s, n, w, j); }
    if p :| Find(t, w) == Some(p) {
      forall j: nat | j < n + p ensures !OccursAt(s, w, j) {
        if n <= j { assert OccursAt(t, w, j - n) <==> OccursAt(s, w, n + (j - n)); }
      }
      FoundAt(s, w, n + p);
    } else {
      forall j: nat ensures !OccursAt(s, w, j) {
        if n <= j { assert OccursAt(t, w, j - n) <==> OccursAt(s, w, n + (j - n)); }
      }
    }
  }

  /** The first `>` after an opening tag is not inside it. */
  lemma BracketAfter(t: string, open: string)
    requires StartsWith(t, open) && '>' !in open
    ensures Find(t, ">") == Shift(|open|, Find(t[|open|..], ">"))
  {
    OpenIsPrefix(t, open);
    forall j: nat | j < |open| ensures !OccursAt(t, ">", j) { assert t[j..j + 1][0] == open[j]; }
    FindSkip(t, |open|, ">");
  }

  lemma OpenIsPrefix(t: string, open: string)
    requires StartsWith(t, open)
    ensures |open| <= |t| && forall j: nat :: j < |open| ==> t[j] == open[j]
  {
    assert t[..|open|] == open;
  }

  /** A complete span is found exactly when an opening tag, a `>` and a closing tag occur in that order. */
  lemma SpanIff(s: string, open: string, close: string)
    requires '>' !in open && open != "" && close != ""
    ensures FirstSpan(s, open, close).Some? <==> Chain(s, [open, ">", close])
  {
    hide Chain, Find;
    assert [open] + [">", close] == [open, ">", close] && [">"] + [close] == [">", close];
    FindChain(s, open, [">", close]);
    if start :| Find(s, open) == Some(start) {
      FindIsFirst(s, open);
      var t := s[start..];
      var u := t[|open|..];
      assert u == s[start + |open|..];
      BracketAfter(t, open);
      FindChain(u, ">", [close]);
      if q :| Find(u, ">") == Some(q) {
        assert u[q + 1..] == s[start + |open| + q + 1..];
        assert [close] + [] == [close];
        FindChain(u[q + 1..], close, []);
        NothingLeft(u[q + 1..], close);
      }
    }
  }

  lemma NothingLeft(s: string, w: string)
    ensures Find(s, w).Some? ==> Chain(s[Find(s, w).value + |w|..], [])
  {
  }

  // ----------------------------------------------------------- fragments as text

  function Label(t: ToolName): string { t.Ref() + ":" }

  /** The label of `t` at `i`, not inside an identifier. */
  predicate LabelAt(s: string, t: ToolName, i: nat) {
    OccursAt(s, Label(t), i) && (0 < i ==> !IsIdentChar(s[i - 1]))
  }

  /** A label, white space, a conforming object from `j` to `e`, and nothing else on the object's last line. */
  ghost predicate EchoAt(s: string, t: ToolName, a: nat, j: nat, e: nat, num: Decoder) {
    && LabelAt(s, t, a) && a + |Label(t)| <= j <= e <= |s|
    && AllSpace(s[a + |Label(t)|..j])
    && ObjectText(s[j..e], num)
    && AllSpace(LineRest(s[e..]))
  }

  /** The fragment search accepts an occurrence of a name, and removes up to `e`, exactly when a fragment
      with that label stands there and ends at `e`. */
  lemma EchoIff(s: string, t: ToolName, a: nat, e: nat, num: Decoder)
    ensures OccursAt(s, t.Ref(), a) && EchoEnd(s, t.Ref(), a, num) == Some(e)
            <==> exists j :: EchoAt(s, t, a, j, e, num)
  {
    hide EchoAt, EchoEnd, LabelAt, OccursAt, TrimStart, ToolName.Ref;
    LabelIff(s, t, a);
    if OccursAt(s, t.Ref(), a) && EchoEnd(s, t.Ref(), a, num) == Some(e) {
      NamesLabel(s, t, a, num);
      var j := EchoStart(s, t, a);
      EchoEndsIff(s, t, a, j, e, num);
    }
    forall j: nat | EchoAt(s, t, a, j, e, num)
      ensures OccursAt(s, t.Ref(), a) && EchoEnd(s, t.Ref(), a, num) == Some(e)
    {
      EchoIsLabelled(s, t, a, j, e, num);
      EchoEndsIff(s, t, a, j, e, num);
    }
  }

  lemma NamesLabel(s: string, t: ToolName, a: nat, num: Decoder)
    requires OccursAt(s, t.Ref(), a) && EchoEnd(s, t.Ref(), a, num).Some?
    ensures LabelAt(s, t, a)
  {
    hide ToolName.Ref, ObjectEnd, FromStr, Trim, LineRest, TrimStart;
    LabelIff(s, t, a);
  }

  lemma EchoIsLabelled(s: string, t: ToolName, a: nat, j: nat, e: nat, num: Decoder)
    requires EchoAt(s, t, a, j, e, num)
    ensures LabelAt(s, t, a) && a + |Label(t)| <= |s| && j == |s| - |TrimStart(s[a + |Label(t)|..])|
  {
    hide LineRest, TrimStart, Label, ObjectText;
    ObjectStarts(s, a + |Label(t)|, j, e, num);
  }

  /** Where the object of a label has to begin. */
  lemma EchoStart(s: string, t: ToolName, a: nat) returns (j: nat)
    requires LabelAt(s, t, a)
    ensures a + |Label(t)| <= |s| && j == |s| - |TrimStart(s[a + |Label(t)|..])|
  {
    hide Label, TrimStart;
    j := |s| - |TrimStart(s[a + |Label(t)|..])|;
  }

  lemma EchoEndsIff(s: string, t: ToolName, a: nat, j: nat, e: nat, num: Decoder)
    requires LabelAt(s, t, a) && a + |Label(t)| <= |s| && j == |s| - |TrimStart(s[a + |Label(t)|..])|
    ensures EchoEnd(s, t.Ref(), a, num) == Some(e) <==> EchoAt(s, t, a, j, e, num)
  {
    hide ObjectText, TrimStart, LineRest, ObjectEnd, FromStr, AllSpace, LabelAt, Trim, EchoEnd;
    EchoEndSteps(s, t, a, j, num);
    SpaceBefore(s, a + |Label(t)|);
    if j <= e <= |s| {
      ObjectIff(s[j..], e - j, num);
      assert s[j..][..e - j] == s[j..e];
      BlankIff(LineRest(s[e..]));
    }
  }

  /** `EchoEnd` from the object on. */
  lemma EchoEndSteps(s: string, t: ToolName, a: nat, j: nat, num: Decoder)
    requires LabelAt(s, t, a) && a + |Label(t)| <= |s| && j == |s| - |TrimStart(s[a + |Label(t)|..])|
    ensures var r := EchoEnd(s, t.Ref(), a, num);
            match ObjectEnd(s[j..])
            case None => r == None
            case Some(n) =>
              r == if FromStr(s[j..j + n], num).Some? && Trim(LineRest(s[j + n..])) == "" then Some(j + n) else None
  {
    hide ToolName.Ref, ObjectEnd, FromStr, Trim, LineRest, TrimStart, LabelAt, OccursAt, IsIdentChar;
    LabelIff(s, t, a);
  }

  lemma SpaceBefore(s: string, after: nat)
    requires after <= |s|
    ensures var j := |s| - |TrimStart(s[after..])|; after <= j <= |s| && AllSpace(s[after..j])
  {
    TrimStartShape(s[after..]);
    var n := |s[after..]| - |TrimStart(s[after..])|;
    assert s[after..][..n] == s[after..after + n];
  }

  lemma LabelIff(s: string, t: ToolName, a: nat)
    ensures LabelAt(s, t, a)
            <==> OccursAt(s, t.Ref(), a) && (0 < a ==> !IsIdentChar(s[a - 1]))
                 && a + |t.Ref()| < |s| && s[a + |t.Ref()|] == ':'
  {
    hide ToolName.Ref, IsIdentChar;
    OccursSnoc(s, t.Ref(), ':', a);
    assert t.Ref() + [':'] == Label(t);
  }

  lemma OccursSnoc(s: string, w: string, c: char, a: nat)
    ensures OccursAt(s, w + [c], a) <==> OccursAt(s, w, a) && a + |w| < |s| && s[a + |w|] == c
  {
    var n := |w|;
    if a + n < |s| {
      assert s[a..a + n + 1] == s[a..a + n] + [s[a + n]];
      assert (w + [c])[..n] == w && (w + [c])[n] == c;
      assert (s[a..a + n] + [s[a + n]])[..n] == s[a..a + n] && (s[a..a + n] + [s[a + n]])[n] == s[a + n];
    }
  }

  /** White space before an object's text is all that `trim_start` removes. */
  lemma ObjectStarts(s: string, after: nat, j: nat, e: nat, num: Decoder)
    requires after <= j <= e <= |s| && AllSpace(s[after..j]) && ObjectText(s[j..e], num)
    ensures j == |s| - |TrimStart(s[after..])|
  {
    var c: Cst :| Loose(c) && c.CObj? && Strict(c, num) && Depth(c) <= MAX_DEPTH && s[j..e] == TextOf(c, "");
    ObjectEnds(c);
    assert s[j..][0] == s[j..e][0] == '{';
    TrimStartSkips(s[after..j], s[j..]);
    assert s[after..j] + s[j..] == s[after..];
  }
}
