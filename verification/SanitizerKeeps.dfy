/** What the sanitizer keeps (`inference.rs`): the text outside the spans, every line but the leaking ones,
    and what stands before a removed fragment. */
module SanitizerKeeps {
  import opened Text
  import opened Json
  import opened Scanner
  import opened ToolCall
  import opened Sanitizer
  import opened SanitizerText
  import opened SanitizerTwice

  // ------------------------------------------------------------------- lines shown

  /** The lines that are not blank, without trailing white space. */
  function Ends(g: seq<string>): seq<string> {
    if g == [] then []
    else (if Trim(g[0]) == "" then [] else [TrimEnd(g[0])]) + Ends(g[1..])
  }

  /** Of these, the lines that are not a bare non-call object. */
  function Shown(g: seq<string>, num: Decoder): seq<string> {
    if g == [] then []
    else
      (if Trim(g[0]) == "" || IsLeak(Trim(g[0]), num) then [] else [TrimEnd(g[0])]) + Shown(g[1..], num)
  }

  /** The text begins without white space. */
  function FirstTrimmed(g: seq<string>): seq<string> {
    if g == [] then [] else [TrimStart(g[0])] + g[1..]
  }

  lemma {:induction false} EndsAppend(a: seq<string>, b: seq<string>)
    ensures Ends(a + b) == Ends(a) + Ends(b)
  {
    hide Trim, TrimEnd;
    if a == [] {
      assert a + b == b;
    } else {
      assert (a + b)[1..] == a[1..] + b;
      EndsAppend(a[1..], b);
      var first := if Trim(a[0]) == "" then [] else [TrimEnd(a[0])];
      Grouping(first, Ends(a[1..]), Ends(b));
    }
  }

  lemma Grouping<T>(x: seq<T>, y: seq<T>, z: seq<T>)
    ensures x + (y + z) == x + y + z
  {
  }

  lemma EndsOne(x: string)
    ensures Ends([x]) == if Trim(x) == "" then [] else [TrimEnd(x)]
  {
    hide Trim, TrimEnd;
    assert [x][1..] == [] && Ends([]) == [];
  }

  lemma CrTrims(line: string)
    ensures TrimEnd(StripCr(line)) == TrimEnd(line) && Trim(StripCr(line)) == Trim(line)
  {
    TrimCr(line);
  }

  lemma {:induction false} ShownLines(g: seq<string>, num: Decoder)
    ensures Shown(LinesOf(g), num) == Shown(g, num)
  {
    hide Trim, TrimEnd, IsLeak, StripCr;
    if g == [""] {
      TrimNothing();
      assert g[1..] == [];
    } else if |g| > 1 {
      ShownLines(g[1..], num);
      CrTrims(g[0]);
      assert LinesOf(g)[1..] == LinesOf(g[1..]);
    }
  }

  lemma {:induction false} EndsLines(g: seq<string>)
    ensures Ends(LinesOf(g)) == Ends(g)
  {
    hide Trim, TrimEnd, StripCr;
    if g == [""] {
      TrimNothing();
      assert g[1..] == [];
    } else if |g| > 1 {
      EndsLines(g[1..]);
      CrTrims(g[0]);
      assert LinesOf(g)[1..] == LinesOf(g[1..]);
    }
  }

  lemma {:induction false} EndsKept(lines: seq<string>, num: Decoder)
    ensures Ends(KeepLines(lines, num)) == Shown(lines, num)
  {
    hide Trim, TrimEnd, IsLeak;
    if lines != [] {
      EndsKept(lines[1..], num);
      var kept := KeepLines(lines[1..], num);
      assert ([lines[0]] + kept)[1..] == kept;
      EmptyIsNoLeak(num);
    }
  }

  lemma EndsJoined(kept: seq<string>)
    requires forall i :: 0 <= i < |kept| ==> NoNewline(kept[i])
    ensures Ends(Segs(JoinLines(kept))) == Ends(kept)
  {
    hide Trim, TrimEnd, Segs;
    if kept == [] {
      SegsPlain("");
      TrimNothing();
      EndsOne("");
    } else {
      SegsOfJoin(kept);
    }
  }

  lemma EndsOfEnd(line: string)
    ensures Ends([TrimEnd(line)]) == Ends([line])
  {
    hide Trim, TrimEnd;
    EndsOne(line);
    EndsOne(TrimEnd(line));
    TrimOfTrimEnd(line);
    TrimEndTwice(line);
  }

  lemma {:induction false} EndsCollapse(lines: seq<string>, out: string, prevBlank: bool)
    requires forall i :: 0 <= i < |lines| ==> NoNewline(lines[i])
    ensures Ends(Segs(CollapseFrom(lines, out, prevBlank))) == Ends(Segs(out)) + Ends(lines)
    decreases |lines|
  {
    hide Trim, TrimEnd, Segs, Ends;
    if lines == [] {
      EndsNothing();
    } else {
      var line, rest := lines[0], lines[1..];
      var blank := Trim(line) == "";
      assert lines == [line] + rest;
      EndsAppend([line], rest);
      EndsOne(line);
      if blank && prevBlank {
        EndsCollapse(rest, out, prevBlank);
      } else {
        var next := out + (if out == "" then "" else "\n") + TrimEnd(line);
        EndsCollapse(rest, next, blank);
        EndsAdded(out, line);
        Grouping(Ends(Segs(out)), Ends([line]), Ends(rest));
      }
    }
  }

  lemma EndsNothing()
    ensures Ends([]) == [] && Ends(Segs("")) == [] && forall x: seq<string> :: x + [] == x
  {
    TrimNothing();
    EndsOne("");
  }

  lemma EndsAdded(out: string, line: string)
    requires NoNewline(line)
    ensures Ends(Segs(out + (if out == "" then "" else "\n") + TrimEnd(line))) == Ends(Segs(out)) + Ends([line])
  {
    EndKeepsLine(line);
    hide Trim, TrimEnd, Segs, Ends, NoNewline;
    var e := TrimEnd(line);
    EndsOfEnd(line);
    SegsPlain(e);
    if out == "" {
      EndsNothing();
      assert out + "" + e == e && [] + Ends([line]) == Ends([line]);
    } else {
      assert out + "\n" + e == out + ("\n" + e);
      SegsConcat(out, e);
      EndsAppend(Segs(out), [e]);
    }
  }

  // -- the ends of the whole text

  lemma {:induction false} EndsTrimEnd(s: string)
    ensures Ends(Segs(TrimEnd(s))) == Ends(Segs(s))
  {
    if s != "" && IsSpace(s[|s| - 1]) {
      var t, c := s[..|s| - 1], s[|s| - 1];
      assert s == t + [c];
      EndsTrimEnd(t);
      EndsSnoc(t, c);
    }
  }

  lemma EndsSnoc(t: string, c: char)
    requires IsSpace(c)
    ensures Ends(Segs(t + [c])) == Ends(Segs(t))
  {
    hide Segs, Ends, Trim, TrimEnd, IsSpace;
    EndsNothing();
    if c == '\n' {
      SegsConcat(t, "");
      assert t + ("\n" + "") == t + [c];
      EndsAppend(Segs(t), Segs(""));
    } else {
      SegsSnoc(t, c);
      var g := Segs(t);
      var before, last := g[..|g| - 1], g[|g| - 1];
      assert g == before + [last];
      EndsAppend(before, [last]);
      EndsAppend(before, [last + [c]]);
      SpaceAfter(last, c);
      EndsOne(last);
      EndsOne(last + [c]);
    }
  }

  lemma SpaceAfter(s: string, c: char)
    requires IsSpace(c)
    ensures Trim(s + [c]) == Trim(s) && TrimEnd(s + [c]) == TrimEnd(s)
  {
    assert (s + [c])[..|s|] == s;
    TrimDropsLast(s + [c]);
  }

  lemma {:induction false} EndsTrimStart(s: string)
    ensures Ends(Segs(TrimStart(s))) == FirstTrimmed(Ends(Segs(s)))
  {
    if s != "" && IsSpace(s[0]) {
      EndsTrimStart(s[1..]);
      if s[0] == '\n' { EndsBlankFirst(Segs(s[1..])); } else { EndsSpaceFirst(s[0], Segs(s[1..])); }
    } else if s == "" {
      EndsNothing();
    } else {
      EndsSolid(s);
    }
  }

  lemma EndsBlankFirst(g: seq<string>)
    ensures Ends([""] + g) == Ends(g)
  {
    TrimNothing();
    assert ([""] + g)[1..] == g;
  }

  lemma EndsSpaceFirst(c: char, g: seq<string>)
    requires g != [] && IsSpace(c)
    ensures FirstTrimmed(Ends([[c] + g[0]] + g[1..])) == FirstTrimmed(Ends(g))
  {
    hide Ends, Trim, TrimStart, TrimEnd;
    var first := [c] + g[0];
    assert g == [g[0]] + g[1..];
    EndsAppend([first], g[1..]);
    EndsAppend([g[0]], g[1..]);
    EndsOne(first);
    EndsOne(g[0]);
    TrimLead(c, g[0]);
    if Trim(g[0]) != "" {
      SpaceBefore(c, g[0]);
      HeadTrimmed(TrimEnd(first), TrimEnd(g[0]), Ends(g[1..]));
    }
  }

  lemma HeadTrimmed(x: string, y: string, rest: seq<string>)
    requires TrimStart(x) == TrimStart(y)
    ensures FirstTrimmed([x] + rest) == FirstTrimmed([y] + rest)
  {
    hide TrimStart;
    assert ([x] + rest)[1..] == rest && ([y] + rest)[1..] == rest;
  }

  lemma SpaceBefore(c: char, s: string)
    requires IsSpace(c) && Trim(s) != ""
    ensures TrimStart(TrimEnd([c] + s)) == TrimStart(TrimEnd(s))
  {
    EndLed(c, s);
    assert ([c] + TrimEnd(s))[1..] == TrimEnd(s);
  }

  lemma {:induction false} EndLed(c: char, s: string)
    requires Trim(s) != ""
    ensures TrimEnd([c] + s) == [c] + TrimEnd(s)
  {
    if s != "" && IsSpace(s[|s| - 1]) {
      TrimDropsLast(s);
      EndLed(c, s[..|s| - 1]);
      assert ([c] + s)[..|s|] == [c] + s[..|s| - 1];
    }
  }

  lemma EndsSolid(s: string)
    requires s != "" && !IsSpace(s[0])
    ensures FirstTrimmed(Ends(Segs(s))) == Ends(Segs(s))
  {
    var g := Segs(s);
    assert g[0] != "" && g[0][0] == s[0];
    SolidEnd(g[0]);
    var e := Ends(g);
    assert e[0] == TrimEnd(g[0]) && TrimStart(e[0]) == e[0];
    assert e == [e[0]] + e[1..];
  }

  lemma SolidEnd(x: string)
    requires x != "" && !IsSpace(x[0])
    ensures Trim(x) != "" && TrimEnd(x) != "" && TrimEnd(x)[0] == x[0] && Trim(x) == TrimEnd(x)
  {
    BlankIff(x);
    assert TrimStart(x) == x;
  }

  /** The cleaned-up text has exactly the lines that are neither blank nor a bare non-call object, in order
      and without trailing white space, the first without leading white space. */
  lemma TidyLinesShow(x: string, num: Decoder)
    ensures Ends(Segs(TidyLines(x, num))) == FirstTrimmed(Shown(Segs(x), num))
  {
    hide Ends, Shown, FirstTrimmed, Segs, IsLeak, TrimStart, TrimEnd;
    var kept := KeepLines(Lines(x), num);
    SegsNoNewline(x);
    PlainKept(x, num);
    var j := JoinLines(kept);
    var out := CollapseFrom(Lines(j), "", false);
    ShownLines(Segs(x), num);
    EndsKept(Lines(x), num);
    EndsJoined(kept);
    EndsLines(Segs(j));
    SegsNoNewline(j);
    PlainLinesOf(Segs(j));
    EndsCollapse(Lines(j), "", false);
    EndsNothing();
    assert [] + Ends(Lines(j)) == Ends(Lines(j));
    EndsTrimStart(out);
    EndsTrimEnd(TrimStart(out));
  }

  lemma PlainLinesOf(g: seq<string>)
    requires forall i :: 0 <= i < |g| ==> NoNewline(g[i])
    ensures forall i :: 0 <= i < |LinesOf(g)| ==> NoNewline(LinesOf(g)[i])
  {
    LinesPlain(g, line => true);
  }

  lemma PlainKept(x: string, num: Decoder)
    ensures forall i :: 0 <= i < |KeepLines(Lines(x), num)| ==> NoNewline(KeepLines(Lines(x), num)[i])
  {
    SegsNoNewline(x);
    PlainLinesOf(Segs(x));
    KeptArePlain(Lines(x), num, line => true);
  }

  // ------------------------------------------------------- what a fragment leaves

  /** A fragment on one line: its label at `a`, its object ending at `e`, and only white space after that. */
  ghost predicate FragmentOn(line: string, t: ToolName, a: nat, e: nat, num: Decoder) {
    exists j: nat ::
      && LabelAt(line, t, a) && a + |Label(t)| <= j <= e <= |line| && AllSpace(line[a + |Label(t)|..j])
      && ObjectText(line[j..e], num) && AllSpace(line[e..])
  }

  /** What is left of a line: what stands before its fragment, or all of it. */
  ghost predicate LineCut(line: string, cut: string, num: Decoder) {
    || (exists t: ToolName, a: nat, e: nat :: FragmentOn(line, t, a, e, num) && cut == line[..a] + line[e..])
    || (cut == line && forall t: ToolName, a: nat, e: nat :: !FragmentOn(line, t, a, e, num))
  }

  /** A line between the lines before and after it. */
  lemma SegsAround(before: string, line: string, after: string)
    requires NoNewline(line) && (before == "" || before[|before| - 1] == '\n') && (after == "" || after[0] == '\n')
    ensures Segs(before + line + after) == LinesBefore(before) + [line] + LinesAfter(after)
  {
    hide Segs;
    SegsPlain(line);
    var rest := line + after;
    assert before + line + after == before + rest;
    if after != "" {
      assert after == "\n" + after[1..];
      SegsConcat(line, after[1..]);
    } else {
      assert rest == line;
    }
    assert Segs(rest) == [line] + LinesAfter(after);
    if before != "" {
      var b := before[..|before| - 1];
      assert before + rest == b + ("\n" + rest);
      SegsConcat(b, rest);
      Grouping(Segs(b), [line], LinesAfter(after));
    } else {
      assert before + rest == rest;
      assert [] + [line] == [line];
    }
  }

  function LinesBefore(before: string): seq<string> {
    if before == "" then [] else Segs(before[..|before| - 1])
  }

  function LinesAfter(after: string): seq<string> { if after == "" then [] else Segs(after[1..]) }

  lemma LabelInLine(s: string, o: nat, line: string, t: ToolName, a: nat)
    requires LineAt(s, o, line) && o <= a <= o + |line|
    ensures a + |Label(t)| <= o + |line| && LabelAt(s, t, a) ==> LabelAt(line, t, a - o)
    ensures LabelAt(line, t, a - o) ==> LabelAt(s, t, a)
  {
    LabelShape(t);
    hide Label;
    var w := Label(t);
    if a + |w| <= o + |line| {
      SliceOf(s, line, o, a - o, |w|);
    }
    if o < a { SliceOf(s, line, o, a - o, 0); }
    if o == a && 0 < o { NewlineIsNoIdent(); }
  }

  lemma NewlineIsNoIdent()
    ensures !IsIdentChar('\n')
  {
  }

  /** On a settled text a fragment lies on the line of its label. */
  lemma EchoOnItsLine(x: string, t: ToolName, a: nat, j: nat, e: nat, num: Decoder) returns (o: nat, line: string)
    requires LabelsSettled(x) && EchoAt(x, t, a, j, e, num)
    ensures line in Segs(x) && LineAt(x, o, line) && o <= a <= e <= o + |line|
    ensures FragmentOn(line, t, a - o, e - o, num)
  {
    hide Segs, LineRest, Label, LabelAt, TrimStart, ObjectText, ObjectEnd, AllSpace, PieceAt;
    LabelInside(x, t, a);
    LabelShape(t);
    LabelHead(x, t, a);
    var after := a + |Label(t)|;
    o, line := LineOf(x, a);
    WithinLine(x, o, line, Label(t), a);
    var before, v := line[..after - o], line[after - o..];
    assert line == before + v;
    RestOfLine(x, o, line, before, v);
    assert LineSettled(x, after);
    TailIff(x, t, a, j - after, e - after, num);
    var k := AfterLine(x[after..], v);
    assert v + "" == v && v + "" + k == x[after..];
    NoSpaces();
    TailOnLine(v, "", k, "", j - after, e - after, num);
    LabelInLine(x, o, line, t, a);
    FragmentSlices(line, before, v, t, a - o, j - after, e - after, num);
  }

  lemma NoSpaces()
    ensures AllSpace("")
  {
  }

  lemma LabelHead(x: string, t: ToolName, a: nat)
    requires LabelAt(x, t, a)
    ensures a < |x| && x[a] != '\n' && OccursAt(x, Label(t), a)
  {
    LabelShape(t);
    HeadOf(x, Label(t), a);
    assert Label(t)[0] in Label(t);
  }

  lemma FragmentSlices(line: string, before: string, v: string, t: ToolName, a: nat, n: nat, m: nat, num: Decoder)
    requires line == before + v && LabelAt(line, t, a) && |before| == a + |Label(t)| && LabelsObject(v, n, m, num)
    ensures FragmentOn(line, t, a, |before| + m, num)
  {
    hide Label, LabelAt, ObjectText, AllSpace;
    var b := |before|;
    assert line[b..b + n] == v[..n] && line[b + n..b + m] == v[n..m] && line[b + m..] == v[m..];
    assert a + |Label(t)| <= b + n <= b + m <= |line|;
  }

  lemma FragmentEchoes(x: string, o: nat, line: string, t: ToolName, a: nat, e: nat, num: Decoder)
    requires LineAt(x, o, line) && FragmentOn(line, t, a, e, num)
    ensures RemovableAt(x, t, o + a, num)
  {
    hide Label, LabelAt, ObjectText, AllSpace, LineRest, RemovableAt, LineAt, EchoAt;
    var after := a + |Label(t)|;
    var j: nat :| LabelAt(line, t, a) && after <= j <= e <= |line| && AllSpace(line[after..j])
      && ObjectText(line[j..e], num) && AllSpace(line[e..]);
    LabelInLine(x, o, line, t, o + a);
    EchoFromLine(x, o, line, t, a, j, e, num);
    EchoIff(x, t, o + a, o + e, num);
    Removes(x, t, o + a, o + e, num);
  }

  lemma EchoFromLine(x: string, o: nat, line: string, t: ToolName, a: nat, j: nat, e: nat, num: Decoder)
    requires LineAt(x, o, line) && LabelAt(x, t, o + a) && a + |Label(t)| <= j <= e <= |line|
    requires AllSpace(line[a + |Label(t)|..j]) && ObjectText(line[j..e], num) && AllSpace(line[e..])
    ensures EchoAt(x, t, o + a, o + j, o + e, num)
  {
    hide Label, LabelAt, ObjectText, AllSpace, LineRest, LineAt;
    var after := a + |Label(t)|;
    EchoSlice(x, o, line, after, j);
    EchoSlice(x, o, line, j, e);
    EchoRest(x, o, line, e);
    assert o + a + |Label(t)| == o + after;
  }

  lemma EchoSlice(x: string, o: nat, line: string, i: nat, k: nat)
    requires LineAt(x, o, line) && i <= k <= |line|
    ensures o + k <= |x| && x[o + i..o + k] == line[i..k]
  {
    hide IsIdentChar;
    SliceOf(x, line, o, i, k - i);
  }

  lemma EchoRest(x: string, o: nat, line: string, e: nat)
    requires LineAt(x, o, line) && e <= |line|
    ensures o + e <= |x| && LineRest(x[o + e..]) == line[e..]
  {
    hide LineRest, LineAt;
    assert line == line[..e] + line[e..];
    RestOfLine(x, o, line, line[..e], line[e..]);
  }

  /** A settled line has one label, so nothing is left to cut once its fragment is cut. */
  lemma CutOnce(x: string, o: nat, line: string, t: ToolName, a: nat, e: nat, num: Decoder)
    requires LabelsSettled(x) && LineAt(x, o, line) && FragmentOn(line, t, a, e, num)
    ensures forall u: ToolName, b: nat, f: nat :: !FragmentOn(line[..a] + line[e..], u, b, f, num)
  {
    hide Label, LabelAt, ObjectText, AllSpace, LineRest, LabelsSettled;
    var cut := line[..a] + line[e..];
    forall u: ToolName, b: nat, f: nat ensures !FragmentOn(cut, u, b, f, num) {
      if FragmentOn(cut, u, b, f, num) {
        LabelBefore(line[..a], line[e..], u, b);
        LabelKeptIn(line, a, e, u, b);
        OneLabelALine(x, o, line, t, a, u, b);
      }
    }
  }

  lemma LabelBefore(pre: string, blank: string, u: ToolName, b: nat)
    requires AllSpace(blank) && LabelAt(pre + blank, u, b)
    ensures b + |Label(u)| <= |pre|
  {
    LabelShape(u);
    var i := b + |Label(u)| - 1;
    LastOf(pre + blank, Label(u), b);
    SolidInFront(pre, blank, i);
  }

  lemma SolidInFront(v: string, q: string, n: nat)
    requires n < |v + q| && AllSpace(q) && !IsSpace((v + q)[n])
    ensures n < |v|
  {
  }

  lemma LabelKeptIn(line: string, a: nat, e: nat, u: ToolName, b: nat)
    requires a <= e <= |line| && LabelAt(line[..a] + line[e..], u, b) && b + |Label(u)| <= a
    ensures LabelAt(line, u, b)
  {
    hide Label;
    var w := Label(u);
    assert (line[..a] + line[e..])[b..b + |w|] == line[b..b + |w|];
    assert 0 < b ==> (line[..a] + line[e..])[b - 1] == line[b - 1];
  }

  lemma OneLabelALine(x: string, o: nat, line: string, t: ToolName, a: nat, u: ToolName, b: nat)
    requires LabelsSettled(x) && LineAt(x, o, line) && LabelAt(line, t, a) && LabelAt(line, u, b)
    ensures !(b + |Label(u)| <= a)
  {
    hide Label, LabelAt, LineRest, PieceAt, AllSpace;
    LabelShape(t);
    LabelInside(line, t, a);
    LabelInside(line, u, b);
    LabelInLine(x, o, line, t, o + a);
    LabelInLine(x, o, line, u, o + b);
    var j := o + b + |Label(u)|;
    assert LineSettled(x, j);
    assert line == line[..j - o] + line[j - o..];
    RestOfLine(x, o, line, line[..j - o], line[j - o..]);
    LabelIsPiece(x, t, o + a);
  }

  lemma LabelIsPiece(x: string, t: ToolName, a: nat)
    requires LabelAt(x, t, a)
    ensures PieceAt(x, a)
  {
    LabelStands(x, t, a);
    assert Opening(Label(t));
  }

  ghost predicate LinesCut(g: seq<string>, h: seq<string>, num: Decoder) {
    |g| == |h| && forall i :: 0 <= i < |g| ==> LineCut(g[i], h[i], num)
  }

  lemma NoFragments(x: string, num: Decoder)
    requires NoEcho(x, num)
    ensures LinesCut(Segs(x), Segs(x), num)
  {
    hide RemovableAt, FragmentOn, Segs;
    forall i | 0 <= i < |Segs(x)| ensures LineCut(Segs(x)[i], Segs(x)[i], num) {
      var line := Segs(x)[i];
      forall t: ToolName, a: nat, e: nat ensures !FragmentOn(line, t, a, e, num) {
        if FragmentOn(line, t, a, e, num) {
          var o := LineStart(x, line);
          FragmentEchoes(x, o, line, t, a, e, num);
        }
      }
    }
  }

  /** Removing the fragments of a settled text cuts each line down to what stands before its fragment, and
      touches nothing else. */
  lemma {:induction false} FragmentsCut(x: string, num: Decoder)
    requires Sound(x)
    ensures LinesCut(Segs(x), Segs(StripEchoesOf(x, num)), num)
    decreases |x|
  {
    hide NotTorn, LabelsSettled, PieceAt, FirstEcho, Segs, LinesCut, NoEcho, FragmentOn, EchoEnd, EchoAt,
      ToolName.Ref;
    if FirstEcho(x, ALL_TOOLS, num).None? {
      FirstEchoExact(x, num);
      NoFragments(x, num);
    } else {
      var t, a, e := FoundEcho(x, ALL_TOOLS, num);
      EchoShape(x, num);
      EchoIff(x, t, a, e, num);
      var j: nat :| EchoAt(x, t, a, j, e, num);
      SuffixKeeps(x, e);
      SuffixKeepsLabels(x, e);
      CutKeeps(x, a, x[e..]);
      CutKeepsLabels(x, a, x[e..]);
      var cut := x[..a] + x[e..];
      FragmentsCut(cut, num);
      var o, line := EchoOnItsLine(x, t, a, j, e, num);
      CutLines(x, o, line, t, a, e, Segs(StripEchoesOf(cut, num)), num);
    }
  }

  lemma CutLines(x: string, o: nat, line: string, t: ToolName, a: nat, e: nat, out: seq<string>, num: Decoder)
    requires LabelsSettled(x) && LineAt(x, o, line) && o <= a <= e <= o + |line|
    requires FragmentOn(line, t, a - o, e - o, num) && LinesCut(Segs(x[..a] + x[e..]), out, num)
    ensures LinesCut(Segs(x), out, num)
  {
    hide LabelsSettled, Segs, FragmentOn, LinesBefore, LinesAfter, LineCut;
    var before, after := x[..o], x[o + |line|..];
    var less := line[..a - o] + line[e - o..];
    CutOnce(x, o, line, t, a - o, e - o, num);
    CutText(x, o, line, a, e);
    SegsAround(before, line, after);
    SegsAround(before, less, after);
    CutTwice(line, less, t, a - o, e - o, num);
    OneCut(LinesBefore(before), line, less, LinesAfter(after), out, num);
  }

  lemma CutText(x: string, o: nat, line: string, a: nat, e: nat)
    requires LineAt(x, o, line) && o <= a <= e <= o + |line|
    ensures var before, less, after := x[..o], line[..a - o] + line[e - o..], x[o + |line|..];
            && x == before + line + after && x[..a] + x[e..] == before + less + after
            && NoNewline(line) && NoNewline(less)
            && (before == "" || before[|before| - 1] == '\n') && (after == "" || after[0] == '\n')
  {
    var before, less, after := x[..o], line[..a - o] + line[e - o..], x[o + |line|..];
    assert x[o..o + |line|] == line;
    assert x == before + line + after;
    MiddleCut(before, line, after, a - o, e - o);
    PlainLess(line, less);
  }

  lemma MiddleCut(before: string, line: string, after: string, i: nat, k: nat)
    requires i <= k <= |line|
    ensures var x := before + line + after;
            x[..|before| + i] + x[|before| + k..] == before + (line[..i] + line[k..]) + after
  {
    var x := before + line + after;
    assert x[..|before| + i] == before + line[..i];
    assert x[|before| + k..] == line[k..] + after;
  }

  lemma PlainLess(line: string, less: string)
    requires '\n' !in line && forall c :: c in less ==> c in line
    ensures NoNewline(line) && NoNewline(less)
  {
    assert forall i :: 0 <= i < |less| ==> less[i] in less;
    assert forall i :: 0 <= i < |line| ==> line[i] in line;
  }

  /** What is left of a line stays as it is. */
  lemma CutTwice(line: string, less: string, t: ToolName, a: nat, e: nat, num: Decoder)
    requires FragmentOn(line, t, a, e, num) && less == line[..a] + line[e..]
    requires forall u: ToolName, b: nat, f: nat :: !FragmentOn(less, u, b, f, num)
    ensures forall out: string :: LineCut(less, out, num) ==> LineCut(line, out, num)
  {
    hide FragmentOn;
  }

  lemma OneCut(g: seq<string>, line: string, less: string, h: seq<string>, out: seq<string>, num: Decoder)
    requires LinesCut(g + [less] + h, out, num)
    requires forall cut :: LineCut(less, cut, num) ==> LineCut(line, cut, num)
    ensures LinesCut(g + [line] + h, out, num)
  {
    hide LineCut;
    var from, to := g + [less] + h, g + [line] + h;
    forall k | 0 <= k < |to| ensures LineCut(to[k], out[k], num) {
      assert LineCut(from[k], out[k], num);
      assert k != |g| ==> to[k] == from[k];
    }
  }

  // ---------------------------------------------------------------- outside spans

  /** A span: an opening prefix, the rest of its tag, what it encloses, and the first closing tag. */
  ghost predicate IsSpan(s: string, open: string, close: string) {
    exists tag: string, inner: string ::
      && s == open + (tag + (">" + (inner + close))) && '>' !in tag
      && forall j: nat :: j < |inner| ==> !OccursAt(inner + close, close, j)
  }

  function Weave(kept: seq<string>, spans: seq<string>): string
    requires |kept| == |spans| + 1
  {
    if spans == [] then kept[0] else kept[0] + (spans[0] + Weave(kept[1..], spans[1..]))
  }

  function Concat(parts: seq<string>): string { if parts == [] then "" else parts[0] + Concat(parts[1..]) }

  /** The text is its spans and what stands between them: each span begins at the first opening prefix after
      the one before, and after the last there is no complete span. */
  ghost predicate Between(text: string, open: string, close: string, kept: seq<string>, spans: seq<string>) {
    && |kept| == |spans| + 1 && text == Weave(kept, spans)
    && (forall i :: 0 <= i < |spans| ==>
          IsSpan(spans[i], open, close) && forall j: nat :: j < |kept[i]| ==> !OccursAt(kept[i] + spans[i], open, j))
    && !Chain(kept[|spans|], [open, ">", close])
  }

  lemma SpanParts(text: string, open: string, close: string) returns (a: nat, b: nat)
    requires FirstSpan(text, open, close).Some? && '>' !in open && open != ""
    ensures FirstSpan(text, open, close) == Some((a, b)) && a < b <= |text| && IsSpan(text[a..b], open, close)
    ensures forall j: nat :: j < a ==> !OccursAt(text[..a] + text[a..b], open, j)
  {
    hide Find, OccursAt, IsSpan;
    var r := FirstSpan(text, open, close).value;
    a, b := r.0, r.1;
    FindIsFirst(text, open);
    var q := Find(text[a..], ">").value;
    FindIsFirst(text[a..], ">");
    var t := text[a + q + 1..];
    var c := Find(t, close).value;
    FindIsFirst(t, close);
    SpanText(text, open, close, a, q, t, c);
    assert text[..a] + text[a..b] == text[..b];
    forall j: nat | j < a ensures !OccursAt(text[..b], open, j) { EarlierOnly(text, open, b, j); }
  }

  lemma EarlierOnly(s: string, w: string, b: nat, j: nat)
    requires b <= |s| && !OccursAt(s, w, j)
    ensures !OccursAt(s[..b], w, j)
  {
    if j + |w| <= b { assert s[..b][j..j + |w|] == s[j..j + |w|]; }
  }

  lemma SpanText(text: string, open: string, close: string, a: nat, q: nat, t: string, c: nat)
    requires OccursAt(text, open, a) && '>' !in open && OccursAt(text[a..], ">", q)
    requires forall j: nat :: j < q ==> !OccursAt(text[a..], ">", j)
    requires a + q + 1 <= |text| && t == text[a + q + 1..] && OccursAt(t, close, c)
    requires forall j: nat :: j < c ==> !OccursAt(t, close, j)
    ensures a + q + 1 + c + |close| <= |text| && IsSpan(text[a..a + q + 1 + c + |close|], open, close)
  {
    hide IsSpan;
    var u := text[a..];
    TagHolds(u, open, q);
    var tag, inner, post := u[|open|..q], t[..c], t[c + |close|..];
    TagParts(u, open, q);
    assert u[q + 1..] == t;
    assert t == inner + (close + post);
    forall j: nat | j < |inner| ensures !OccursAt(inner + close, close, j) {
      assert t[..c + |close|] == inner + close;
      EarlierOnly(t, close, c + |close|, j);
    }
    SpanFirst(open, tag, inner, close, post);
    var whole := open + (tag + (">" + (inner + close)));
    assert u[..|whole|] == text[a..a + |whole|];
    SpanIs(open, tag, inner, close);
  }

  lemma TagParts(u: string, open: string, q: nat)
    requires |open| <= q < |u| && u[..|open|] == open && u[q] == '>'
    ensures u == open + (u[|open|..q] + (">" + u[q + 1..]))
  {
  }

  lemma SpanFirst(open: string, tag: string, inner: string, close: string, post: string)
    ensures var whole := open + (tag + (">" + (inner + close)));
            var u := open + (tag + (">" + (inner + (close + post))));
            |whole| <= |u| && u[..|whole|] == whole
  {
    var whole := open + (tag + (">" + (inner + close)));
    assert open + (tag + (">" + (inner + (close + post)))) == whole + post;
  }

  lemma SpanIs(open: string, tag: string, inner: string, close: string)
    requires '>' !in tag && forall j: nat :: j < |inner| ==> !OccursAt(inner + close, close, j)
    ensures IsSpan(open + (tag + (">" + (inner + close))), open, close)
  {
  }

  lemma TagHolds(u: string, open: string, q: nat)
    requires |open| <= |u| && u[..|open|] == open && '>' !in open && OccursAt(u, ">", q)
    requires forall j: nat :: j < q ==> !OccursAt(u, ">", j)
    ensures |open| <= q && '>' !in u[|open|..q] && u[q] == '>'
  {
    assert u[q] == u[q..q + 1][0] == '>';
    forall j: nat | j < q ensures u[j] != '>' {
      assert !OccursAt(u, ">", j);
      assert u[j..j + 1] == [u[j]];
    }
    assert forall k :: 0 <= k < |open| ==> u[k] == u[..|open|][k] == open[k] && open[k] in open;
  }

  /** Stripping spans keeps exactly what stands between them. */
  lemma {:induction false} SpansBetween(text: string, open: string, close: string)
      returns (kept: seq<string>, spans: seq<string>)
    requires TagPair(open, close)
    ensures Between(text, open, close, kept, spans) && StripSpansOf(text, open, close) == Concat(kept)
    decreases |text|
  {
    hide FirstSpan, IsSpan, Chain;
    SpanIff(text, open, close);
    if FirstSpan(text, open, close).None? {
      kept, spans := [text], [];
      assert kept[1..] == [] && text + "" == text;
    } else {
      var a, b := SpanParts(text, open, close);
      var ks, ss := SpansBetween(text[b..], open, close);
      kept, spans := [text[..a]] + ks, [text[a..b]] + ss;
      assert kept[1..] == ks && spans[1..] == ss;
      assert text == text[..a] + (text[a..b] + text[b..]);
      assert forall i :: 0 < i < |spans| ==> spans[i] == ss[i - 1] && kept[i] == ks[i - 1];
      assert kept[|spans|] == ks[|ss|];
    }
  }

  // --------------------------------------------------------------------- the law

  /** Of a text whose tags and labels are sound, the sanitizer shows exactly the lines outside the spans, each
      without its fragment, that are neither blank nor a bare non-call object: in order, without trailing
      white space, and the first without leading white space. */
  lemma SanitizeShows(text: string, num: Decoder)
    requires NotTorn(text) && LabelsSettled(text)
    ensures exists cut: seq<string> ::
              && LinesCut(Segs(StripTags(text)), cut, num)
              && Ends(Segs(SanitizeProse(text, num))) == FirstTrimmed(Shown(cut, num))
  {
    hide NotTorn, LabelsSettled, Segs, LinesCut, TidyLines, StripEchoesOf, Ends, Shown, FirstTrimmed,
      StripSpansOf;
    var t1 := StripSpansOf(text, RESULT_OPEN, RESULT_CLOSE);
    SpansKeep(text, RESULT_OPEN, RESULT_CLOSE);
    SpansKeep(t1, CALL_OPEN, CLOSE_TAG);
    var x := StripTags(text);
    FragmentsCut(x, num);
    TidyLinesShow(StripEchoesOf(x, num), num);
  }
}
