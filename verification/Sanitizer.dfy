/** The emit-boundary sanitizer of `inference.rs`: what `sanitize_prose` deletes, and exactly which
    text it leaves alone. */
module Sanitizer {
  import opened Text
  import opened Json
  import opened Scanner
  import opened ToolCall
  import opened Subsequence

  // ------------------------------------------------------------- tagged spans

  /** The first complete span from an opening tag to its closing tag: where it starts and ends. */
  function FirstSpan(text: string, open: string, close: string): (r: Option<(nat, nat)>)
    ensures r.Some? ==> r.value.0 < r.value.1 <= |text|
  {
    var start :- Find(text, open);
    var tagEndRel :- Find(text[start..], ">");
    var tagEnd := start + tagEndRel + 1;
    var closeRel :- Find(text[tagEnd..], close);
    Some((start, tagEnd + closeRel + |close|))
  }

  function StripSpansOf(text: string, open: string, close: string): string
    decreases |text|
  {
    match FirstSpan(text, open, close)
    case None => text
    case Some((a, b)) => text[..a] + StripSpansOf(text[b..], open, close)
  }

  method StripSpans(text: string, open: string, close: string) returns (out: string)
    ensures out == StripSpansOf(text, open, close)
  {
    hide Find;
    out := "";
    var rest := text;
    while true
      invariant StripSpansOf(text, open, close) == out + StripSpansOf(rest, open, close)
      decreases |rest|
    {
      var openStart := Find(rest, open);
      if openStart.None? {
        return out + rest;
      }
      var tagEndRel := Find(rest[openStart.value..], ">");
      if tagEndRel.None? {
        return out + rest;
      }
      var tagEnd := openStart.value + tagEndRel.value + 1;
      var head := rest[..openStart.value];
      var closeRel := Find(rest[tagEnd..], close);
      if closeRel.None? {
        Rejoin(out, rest, openStart.value);
        return out + head + rest[openStart.value..];
      }
      var next := rest[tagEnd + closeRel.value + |close|..];
      assert StripSpansOf(rest, open, close) == head + StripSpansOf(next, open, close);
      Assoc(out, head, StripSpansOf(next, open, close));
      out := out + head;
      rest := next;
    }
  }

  lemma Rejoin(out: string, rest: string, i: nat)
    requires i <= |rest|
    ensures out + rest[..i] + rest[i..] == out + rest
  {
    assert rest[..i] + rest[i..] == rest;
  }

  // ------------------------------------------------------- echoed tool results

  /** The rest of the line `s` starts with. */
  function LineRest(s: string): string {
    match Find(s, "\n")
    case Some(nl) => s[..nl]
    case None => s
  }

  /** The end of a removable `NAME: {object}` fragment whose name stands at `start`. */
  function EchoEnd(out: string, name: string, start: nat, num: Decoder): (r: Option<nat>)
    ensures r.Some? ==> start < r.value <= |out|
  {
    var afterName := start + |name|;
    if start > |out| || (start != 0 && IsIdentChar(out[start - 1])) then None
    else if afterName >= |out| || out[afterName] != ':' then None
    else
      var afterColon := afterName + 1;
      var jsonStart := |out| - |TrimStart(out[afterColon..])|;
      var relEnd :- ObjectEnd(out[jsonStart..]);
      var jsonEnd := jsonStart + relEnd;
      if FromStr(out[jsonStart..jsonEnd], num).None? then None
      else if Trim(LineRest(out[jsonEnd..])) != "" then None
      else Some(jsonEnd)
  }

  /** The first removable fragment of one tool name, trying the name's occurrences from `from` on. */
  function SearchEcho(out: string, name: string, from: nat, num: Decoder): (r: Option<(nat, nat)>)
    ensures r.Some? ==> r.value.0 < r.value.1 <= |out|
    requires name != ""
    decreases |out| - from
  {
    match FindFrom(out, name, from)
    case None => None
    case Some(start) =>
      match EchoEnd(out, name, start, num)
      case Some(end) => Some((start, end))
      case None => SearchEcho(out, name, start + |name|, num)
  }

  function FirstEcho(out: string, tools: seq<ToolName>, num: Decoder): (r: Option<(nat, nat)>)
    ensures r.Some? ==> r.value.0 < r.value.1 <= |out|
  {
    if tools == [] then None
    else
      RefNotEmpty(tools[0]);
      var r := SearchEcho(out, tools[0].Ref(), 0, num);
      if r.Some? then r else FirstEcho(out, tools[1..], num)
  }

  lemma RefNotEmpty(t: ToolName)
    ensures t.Ref() != ""
  {
  }

  function StripEchoesOf(text: string, num: Decoder): string
    decreases |text|
  {
    match FirstEcho(text, ALL_TOOLS, num)
    case None => text
    case Some((a, b)) => StripEchoesOf(text[..a] + text[b..], num)
  }

  method StripToolResultEchoFragments(text: string, num: Decoder) returns (out: string)
    ensures out == StripEchoesOf(text, num)
  {
    out := text;
    var removed := true;
    while removed
      invariant StripEchoesOf(text, num) == StripEchoesOf(out, num)
      invariant !removed ==> FirstEcho(out, ALL_TOOLS, num).None?
      decreases |out|, removed
    {
      removed := false;
      for i := 0 to |ALL_TOOLS|
        invariant !removed && FirstEcho(out, ALL_TOOLS, num) == FirstEcho(out, ALL_TOOLS[i..], num)
        invariant StripEchoesOf(text, num) == StripEchoesOf(out, num)
      {
        var name := ALL_TOOLS[i].Ref();
        RefNotEmpty(ALL_TOOLS[i]);
        var found := FindRemovable(out, name, num);
        if found.Some? {
          out := out[..found.value.0] + out[found.value.1..];
          removed := true;
          break;
        }
      }
    }
  }

  method FindRemovable(out: string, name: string, num: Decoder) returns (found: Option<(nat, nat)>)
    requires name != ""
    ensures found == SearchEcho(out, name, 0, num)
  {
    hide EchoEnd;
    var searchFrom := 0;
    while true
      invariant SearchEcho(out, name, 0, num) == SearchEcho(out, name, searchFrom, num)
      decreases |out| - searchFrom
    {
      var start := FindFrom(out, name, searchFrom);
      if start.None? {
        return None;
      }
      var end := EchoEnd(out, name, start.value, num);
      if end.Some? {
        return Some((start.value, end.value));
      }
      searchFrom := start.value + |name|;
    }
  }

  // ------------------------------------------------------------------- lines

  function StripCr(line: string): string {
    if line != "" && line[|line| - 1] == '\r' then line[..|line| - 1] else line
  }

  /** The stretches between newlines. */
  function Segs(s: string): (g: seq<string>)
    ensures g != []
  {
    if s == "" then [""]
    else
      var g := Segs(s[1..]);
      if s[0] == '\n' then [""] + g else [[s[0]] + g[0]] + g[1..]
  }

  function LinesOf(g: seq<string>): seq<string> {
    if g == [] || g == [""] then []
    else if |g| == 1 then g
    else [StripCr(g[0])] + LinesOf(g[1..])
  }

  /** Rust's `str::lines`: a carriage return before a newline belongs to it, and a final newline
      starts no line. */
  function Lines(s: string): seq<string> { LinesOf(Segs(s)) }

  function JoinLines(lines: seq<string>): string {
    Join(lines, "\n")
  }

  function KeepLines(lines: seq<string>, num: Decoder): seq<string> {
    if lines == [] then []
    else if IsLeak(Trim(lines[0]), num) then KeepLines(lines[1..], num)
    else [lines[0]] + KeepLines(lines[1..], num)
  }

  function CollapseFrom(lines: seq<string>, out: string, prevBlank: bool): string
    decreases |lines|
  {
    if lines == [] then out
    else
      var blank := Trim(lines[0]) == "";
      if blank && prevBlank then CollapseFrom(lines[1..], out, prevBlank)
      else CollapseFrom(lines[1..], out + (if out == "" then "" else "\n") + TrimEnd(lines[0]), blank)
  }

  function Collapse(text: string): string {
    Trim(CollapseFrom(Lines(text), "", false))
  }

  method CollapseBlankLines(text: string) returns (r: string)
    ensures r == Collapse(text)
  {
    var lines := Lines(text);
    var out, prevBlank := "", false;
    for i := 0 to |lines|
      invariant CollapseFrom(lines, "", false) == CollapseFrom(lines[i..], out, prevBlank)
    {
      var line := lines[i];
      assert lines[i..][1..] == lines[i + 1..];
      var blank := Trim(line) == "";
      if blank && prevBlank {
        continue;
      }
      if out != "" {
        out := out + "\n";
      }
      assert out + "" == out;
      out := out + TrimEnd(line);
      prevBlank := blank;
    }
    r := Trim(out);
  }

  /** Stages (c) and the final clean-up. */
  function TidyLines(text: string, num: Decoder): string {
    Collapse(JoinLines(KeepLines(Lines(text), num)))
  }

  const RESULT_OPEN := "<tool_result"
  const RESULT_CLOSE := "</tool_result>"
  const CALL_OPEN := "<tool_call"

  function StripTags(text: string): string {
    StripSpansOf(StripSpansOf(text, RESULT_OPEN, RESULT_CLOSE), CALL_OPEN, CLOSE_TAG)
  }

  function SanitizeProse(text: string, num: Decoder): string {
    TidyLines(StripEchoesOf(StripTags(text), num), num)
  }

  method DropLeaks(lines: seq<string>, num: Decoder) returns (outLines: seq<string>)
    ensures outLines == KeepLines(lines, num)
  {
    hide IsLeak, Trim;
    outLines := [];
    for i := 0 to |lines|
      invariant KeepLines(lines, num) == outLines + KeepLines(lines[i..], num)
    {
      var line := lines[i];
      assert lines[i..][1..] == lines[i + 1..];
      var rest := KeepLines(lines[i + 1..], num);
      var trimmed := Trim(line);
      if trimmed != "" && IsLeak(trimmed, num) {
        continue;
      }
      EmptyIsNoLeak(num);
      assert outLines + ([line] + rest) == outLines + [line] + rest;
      outLines := outLines + [line];
    }
    assert outLines + [] == outLines;
  }

  lemma EmptyIsNoLeak(num: Decoder)
    ensures !IsLeak("", num)
  {
  }

  method Sanitize(text: string, num: Decoder) returns (r: string)
    ensures r == SanitizeProse(text, num)
  {
    hide Collapse, StripEchoesOf, StripSpansOf, KeepLines, Lines;
    var t := StripSpans(text, RESULT_OPEN, RESULT_CLOSE);
    t := StripSpans(t, CALL_OPEN, CLOSE_TAG);
    t := StripToolResultEchoFragments(t, num);
    var outLines := DropLeaks(Lines(t), num);
    r := CollapseBlankLines(JoinLines(outLines));
  }

  // ------------------------------------------------------- it only deletes

  lemma {:induction false} SpansDelete(text: string, open: string, close: string)
    ensures Subseq(StripSpansOf(text, open, close), text)
    decreases |text|
  {
    match FirstSpan(text, open, close)
    case None => Refl(text);
    case Some((a, b)) =>
      SpansDelete(text[b..], open, close);
      CutMiddle(text, a, b, StripSpansOf(text[b..], open, close));
  }

  lemma CutMiddle(text: string, a: nat, b: nat, out: string)
    requires a <= b <= |text| && Subseq(out, text[b..])
    ensures Subseq(text[..a] + out, text)
  {
    Refl(text[..a]);
    assert Subseq([], text[a..b]);
    Concat(text[..a], text[..a], [], text[a..b]);
    assert text[..a] + [] == text[..a];
    Concat(text[..a], text[..a] + text[a..b], out, text[b..]);
    assert text[..a] + text[a..b] + text[b..] == text;
  }

  lemma {:induction false} EchoesDelete(text: string, num: Decoder)
    ensures Subseq(StripEchoesOf(text, num), text)
    decreases |text|
  {
    match FirstEcho(text, ALL_TOOLS, num)
    case None => Refl(text);
    case Some((a, b)) =>
      var cut := text[..a] + text[b..];
      EchoesDelete(cut, num);
      Refl(text[b..]);
      CutMiddle(text, a, b, text[b..]);
      Trans(StripEchoesOf(text, num), cut, text);
  }

  /** Lines each preceded by a newline. */
  function Led(lines: seq<string>): string {
    if lines == [] then "" else "\n" + lines[0] + Led(lines[1..])
  }

  lemma {:induction false} LedJoin(lines: seq<string>)
    requires lines != []
    ensures "\n" + JoinLines(lines) == Led(lines)
  {
    if |lines| > 1 {
      LedJoin(lines[1..]);
      assert "\n" + (lines[0] + ("\n" + JoinLines(lines[1..]))) == "\n" + lines[0] + ("\n" + JoinLines(lines[1..]));
    } else {
      assert lines[1..] == [];
      assert "\n" + lines[0] + "" == "\n" + lines[0];
    }
  }

  lemma StripCrDeletes(line: string)
    ensures Subseq(StripCr(line), line)
  {
    Refl(line);
    if StripCr(line) != line {
      Refl(StripCr(line));
      assert Subseq([], ['\r']);
      Concat(StripCr(line), StripCr(line), [], ['\r']);
      assert StripCr(line) + [] == StripCr(line) && StripCr(line) + ['\r'] == line;
    }
  }

  lemma {:induction false} SegsJoin(s: string)
    ensures Led(Segs(s)) == "\n" + s
  {
    if s == "" {
      assert Segs(s)[1..] == [] && "\n" + "" + "" == "\n" + s;
    } else {
      SegsJoin(s[1..]);
      var g := Segs(s[1..]);
      if s[0] == '\n' {
        assert ([""] + g)[1..] == g;
        assert "\n" + "" + ("\n" + s[1..]) == "\n" + s;
      } else {
        assert ([[s[0]] + g[0]] + g[1..])[1..] == g[1..];
        FirstSegGrows(s, g[0], Led(g[1..]));
      }
    }
  }

  lemma FirstSegGrows(s: string, first: string, tail: string)
    requires s != "" && "\n" + first + tail == "\n" + s[1..]
    ensures "\n" + ([s[0]] + first) + tail == "\n" + s
  {
    assert ("\n" + first + tail)[1..] == first + tail;
    assert ("\n" + s[1..])[1..] == s[1..];
    assert s == [s[0]] + (first + tail);
  }

  lemma {:induction false} LinesOfDelete(g: seq<string>)
    ensures Subseq(Led(LinesOf(g)), Led(g))
  {
    if |g| <= 1 {
      Refl(Led(g));
    } else {
      LinesOfDelete(g[1..]);
      assert LinesOf(g)[1..] == LinesOf(g[1..]);
      StripCrDeletes(g[0]);
      Refl("\n");
      Concat("\n", "\n", StripCr(g[0]), g[0]);
      Concat("\n" + StripCr(g[0]), "\n" + g[0], Led(LinesOf(g[1..])), Led(g[1..]));
    }
  }

  lemma LinesDelete(s: string)
    ensures Subseq(Led(Lines(s)), "\n" + s)
  {
    SegsJoin(s);
    LinesOfDelete(Segs(s));
  }

  lemma {:induction false} KeepDeletes(lines: seq<string>, num: Decoder)
    ensures Subseq(Led(KeepLines(lines, num)), Led(lines))
  {
    if lines != [] {
      KeepDeletes(lines[1..], num);
      var kept := KeepLines(lines[1..], num);
      if IsLeak(Trim(lines[0]), num) {
        assert Subseq([], "\n" + lines[0]);
        Concat([], "\n" + lines[0], Led(kept), Led(lines[1..]));
        assert [] + Led(kept) == Led(kept);
      } else {
        assert ([lines[0]] + kept)[1..] == kept;
        Refl("\n" + lines[0]);
        Concat("\n" + lines[0], "\n" + lines[0], Led(kept), Led(lines[1..]));
      }
    }
  }

  lemma {:induction false} TrimEndDeletes(s: string)
    ensures Subseq(TrimEnd(s), s)
  {
    if s != "" && IsSpace(s[|s| - 1]) {
      var t := s[..|s| - 1];
      TrimEndDeletes(t);
      assert Subseq([], [s[|s| - 1]]);
      Concat(TrimEnd(t), t, [], [s[|s| - 1]]);
      assert TrimEnd(t) + [] == TrimEnd(t) && t + [s[|s| - 1]] == s;
    } else {
      Refl(s);
    }
  }

  lemma {:induction false} TrimStartDeletes(s: string)
    ensures Subseq(TrimStart(s), s)
  {
    if s != "" && IsSpace(s[0]) { TrimStartDeletes(s[1..]); } else { Refl(s); }
  }

  lemma TrimDeletes(s: string)
    ensures Subseq(Trim(s), s)
  {
    TrimStartDeletes(s);
    TrimEndDeletes(TrimStart(s));
    Trans(Trim(s), TrimStart(s), s);
  }

  lemma {:induction false} CollapseDeletes(lines: seq<string>, out: string, prevBlank: bool)
    ensures Subseq(CollapseFrom(lines, out, prevBlank), out + Led(lines))
    decreases |lines|
  {
    if lines == [] {
      assert out + Led(lines) == out;
      Refl(out);
    } else {
      var head := "\n" + lines[0];
      var tail := Led(lines[1..]);
      var blank := Trim(lines[0]) == "";
      if blank && prevBlank {
        CollapseDeletes(lines[1..], out, prevBlank);
        SkippedLine(out, head, tail, CollapseFrom(lines, out, prevBlank));
      } else {
        CollapseDeletes(lines[1..], out + (if out == "" then "" else "\n") + TrimEnd(lines[0]), blank);
        AddedLine(out, lines[0], tail, CollapseFrom(lines, out, prevBlank));
      }
    }
  }

  lemma SkippedLine(out: string, head: string, tail: string, r: string)
    requires Subseq(r, out + tail)
    ensures Subseq(r, out + (head + tail))
  {
    Refl(out);
    Refl(tail);
    assert Subseq([], head);
    Concat([], head, tail, tail);
    assert [] + tail == tail;
    Concat(out, out, tail, head + tail);
    Trans(r, out + tail, out + (head + tail));
  }

  lemma AddedLine(out: string, line: string, tail: string, r: string)
    requires Subseq(r, out + (if out == "" then "" else "\n") + TrimEnd(line) + tail)
    ensures Subseq(r, out + ("\n" + line + tail))
  {
    var sep := if out == "" then "" else "\n";
    Refl(out);
    Refl(tail);
    Refl("\n");
    assert Subseq(sep, "\n");
    TrimEndDeletes(line);
    Concat(sep, "\n", TrimEnd(line), line);
    Concat(sep + TrimEnd(line), "\n" + line, tail, tail);
    Concat(out, out, sep + TrimEnd(line) + tail, "\n" + line + tail);
    assert out + sep + TrimEnd(line) + tail == out + (sep + TrimEnd(line) + tail);
    Trans(r, out + sep + TrimEnd(line) + tail, out + ("\n" + line + tail));
  }

  /** The first line is kept without a newline before it. */
  lemma {:induction false} LeadingNewline(lines: seq<string>, prevBlank: bool)
    requires lines != []
    ensures Subseq("\n" + CollapseFrom(lines, "", prevBlank), Led(lines))
    decreases |lines|
  {
    var tail := Led(lines[1..]);
    var blank := Trim(lines[0]) == "";
    var r := CollapseFrom(lines, "", prevBlank);
    Refl("\n");
    if blank && prevBlank {
      if |lines| > 1 {
        LeadingNewline(lines[1..], prevBlank);
        assert "" + tail == tail && "" + ("\n" + lines[0] + tail) == "\n" + lines[0] + tail;
        SkippedLine("", "\n" + lines[0], tail, "\n" + r);
      } else {
        assert lines[1..] == [] && tail == "";
        assert r == CollapseFrom(lines[1..], "", prevBlank) == "";
        assert "\n" + lines[0] + "" == "\n" + lines[0] && "\n" + "" == "\n";
        assert Subseq("", lines[0]);
        Concat("\n", "\n", "", lines[0]);
      }
    } else {
      var first := TrimEnd(lines[0]);
      assert "" + "" + first == first;
      CollapseDeletes(lines[1..], first, blank);
      TrimEndDeletes(lines[0]);
      Refl(tail);
      Concat(first, lines[0], tail, tail);
      Trans(r, first + tail, lines[0] + tail);
      Concat("\n", "\n", r, lines[0] + tail);
      assert "\n" + (lines[0] + tail) == "\n" + lines[0] + tail;
    }
  }

  lemma TidyLinesDelete(x: string, num: Decoder)
    ensures Subseq(TidyLines(x, num), x)
  {
    var kept := KeepLines(Lines(x), num);
    var j := JoinLines(kept);
    JoinDeletes(x, kept, num);
    var r := CollapseFrom(Lines(j), "", false);
    if Lines(j) != [] {
      LeadingNewline(Lines(j), false);
      LinesDelete(j);
      Trans("\n" + r, Led(Lines(j)), "\n" + j);
      Tail("\n" + r, "\n" + j);
      assert ("\n" + r)[1..] == r && ("\n" + j)[1..] == j;
    }
    TrimDeletes(r);
    Trans(Trim(r), r, j);
    Trans(Trim(r), j, x);
  }

  lemma JoinDeletes(x: string, kept: seq<string>, num: Decoder)
    requires kept == KeepLines(Lines(x), num)
    ensures Subseq(JoinLines(kept), x)
  {
    if kept != [] {
      var j := JoinLines(kept);
      LedJoin(kept);
      KeepDeletes(Lines(x), num);
      LinesDelete(x);
      Trans("\n" + j, Led(Lines(x)), "\n" + x);
      Tail("\n" + j, "\n" + x);
      assert ("\n" + j)[1..] == j && ("\n" + x)[1..] == x;
    }
  }

  /** The sanitizer only deletes: its output is a subsequence of its input. */
  lemma SanitizeDeletes(text: string, num: Decoder)
    ensures Subseq(SanitizeProse(text, num), text)
  {
    hide TidyLines, StripEchoesOf, StripSpansOf;
    var t1 := StripSpansOf(text, RESULT_OPEN, RESULT_CLOSE);
    var t2 := StripSpansOf(t1, CALL_OPEN, CLOSE_TAG);
    var t3 := StripEchoesOf(t2, num);
    SpansDelete(text, RESULT_OPEN, RESULT_CLOSE);
    SpansDelete(t1, CALL_OPEN, CLOSE_TAG);
    EchoesDelete(t2, num);
    TidyLinesDelete(t3, num);
    Trans(t2, t1, text);
    Trans(t3, t2, text);
    Trans(SanitizeProse(text, num), t3, text);
  }

  // -------------------------------------------- no echo fragment is left over

  ghost predicate RemovableAt(text: string, t: ToolName, a: nat, num: Decoder) {
    OccursAt(text, t.Ref(), a) && EchoEnd(text, t.Ref(), a, num).Some?
  }

  ghost predicate NoEcho(text: string, num: Decoder) {
    forall t: ToolName, a: nat :: !RemovableAt(text, t, a, num)
  }

  lemma RefIsIdent(t: ToolName)
    ensures IsIdent(t.Ref())
  {
    match t
    case StartTimer => assert IsIdent("start_timer");
    case ConvertUnits => assert IsIdent("convert_units");
    case ListManage => assert IsIdent("list_manage");
    case Calculate => assert IsIdent("calculate");
    case DateMath => assert IsIdent("date_math");
  }

  /** An occurrence that overlaps an earlier one starts in the middle of a word. */
  lemma OverlapNotRemovable(text: string, t: ToolName, a: nat, b: nat, num: Decoder)
    requires OccursAt(text, t.Ref(), a) && a < b < a + |t.Ref()|
    ensures EchoEnd(text, t.Ref(), b, num).None?
  {
    RefIsIdent(t);
    assert text[b - 1] == text[a..a + |t.Ref()|][b - 1 - a];
  }

  lemma {:induction false} SearchMissesNone(text: string, t: ToolName, from: nat, num: Decoder)
    requires t.Ref() != "" && SearchEcho(text, t.Ref(), from, num).None?
    ensures forall a: nat :: from <= a ==> !RemovableAt(text, t, a, num)
    decreases |text| - from
  {
    hide EchoEnd, FindFrom, ToolName.Ref;
    RefNotEmpty(t);
    var name := t.Ref();
    FindFromIsFirst(text, name, from);
    if start :| FindFrom(text, name, from) == Some(start) {
      SearchMissesNone(text, t, start + |name|, num);
      forall a: nat | from <= a
        ensures !RemovableAt(text, t, a, num)
      {
        if start < a < start + |name| { OverlapNotRemovable(text, t, start, a, num); }
      }
    }
  }

  lemma {:induction false} SearchFinds(text: string, t: ToolName, from: nat, num: Decoder)
    requires t.Ref() != "" && SearchEcho(text, t.Ref(), from, num).Some?
    ensures RemovableAt(text, t, SearchEcho(text, t.Ref(), from, num).value.0, num)
    decreases |text| - from
  {
    hide EchoEnd, FindFrom, ToolName.Ref;
    FindFromIsFirst(text, t.Ref(), from);
    var start := FindFrom(text, t.Ref(), from).value;
    if EchoEnd(text, t.Ref(), start, num).None? { SearchFinds(text, t, start + |t.Ref()|, num); }
  }

  lemma {:induction false} FirstEchoNone(text: string, tools: seq<ToolName>, num: Decoder)
    ensures FirstEcho(text, tools, num).None? <==>
            forall t: ToolName, a: nat :: t in tools ==> !RemovableAt(text, t, a, num)
  {
    hide EchoEnd, RemovableAt;
    if tools != [] {
      var t := tools[0];
      RefNotEmpty(t);
      FirstEchoNone(text, tools[1..], num);
      if SearchEcho(text, t.Ref(), 0, num).None? {
        SearchMissesNone(text, t, 0, num);
        assert forall u :: u in tools <==> u == t || u in tools[1..];
      } else {
        SearchFinds(text, t, 0, num);
      }
    }
  }

  /** The search finds a fragment exactly when there is one. */
  lemma FirstEchoExact(text: string, num: Decoder)
    ensures FirstEcho(text, ALL_TOOLS, num).None? <==> NoEcho(text, num)
  {
    hide RemovableAt, FirstEcho;
    FirstEchoNone(text, ALL_TOOLS, num);
    forall t: ToolName ensures t in ALL_TOOLS { InCatalog(t); }
  }

  lemma InCatalog(t: ToolName)
    ensures t in ALL_TOOLS
  {
    match t
    case StartTimer => assert ALL_TOOLS[0] == t;
    case ConvertUnits => assert ALL_TOOLS[1] == t;
    case ListManage => assert ALL_TOOLS[2] == t;
    case Calculate => assert ALL_TOOLS[3] == t;
    case DateMath => assert ALL_TOOLS[4] == t;
  }

  /** Stripping stops only when no removable fragment is left anywhere. */
  lemma {:induction false} StripEchoesLeavesNone(text: string, num: Decoder)
    ensures NoEcho(StripEchoesOf(text, num), num)
    decreases |text|
  {
    hide RemovableAt, FirstEcho;
    match FirstEcho(text, ALL_TOOLS, num)
    case None => FirstEchoExact(text, num);
    case Some((a, b)) => StripEchoesLeavesNone(text[..a] + text[b..], num);
  }

  // ------------------------------------------------ what the output's lines are

  predicate NoNewline(s: string) {
    forall i :: 0 <= i < |s| ==> s[i] != '\n'
  }

  /** Every line, trimmed, is acceptable. */
  predicate Calm(g: seq<string>, ok: string -> bool) {
    forall i :: 0 <= i < |g| ==> ok(Trim(g[i]))
  }

  function NoLeak(num: Decoder): string -> bool { line => !IsLeak(line, num) }

  /** No line of `s` is, after trimming, a bare JSON object that is not a tool call. */
  predicate LeakFree(s: string, num: Decoder) { Calm(Segs(s), NoLeak(num)) }

  /** No trailing white space on a line and no two blank lines in a row. */
  predicate TidySegs(g: seq<string>) {
    && (forall i :: 0 <= i < |g| ==> TrimEnd(g[i]) == g[i])
    && (forall i :: 0 < i < |g| ==> g[i - 1] != "" || g[i] != "")
  }

  predicate Tidy(s: string) { Trimmed(s) && TidySegs(Segs(s)) }

  lemma {:induction false} SegsPlain(s: string)
    requires NoNewline(s)
    ensures Segs(s) == [s]
  {
    if s != "" {
      SegsPlain(s[1..]);
      assert Segs(s[1..])[1..] == [];
      assert [s[0]] + s[1..] == s;
      assert [s] + [] == [s];
    }
  }

  lemma {:induction false} SegsNoNewline(s: string)
    ensures forall i :: 0 <= i < |Segs(s)| ==> NoNewline(Segs(s)[i])
  {
    if s != "" { SegsNoNewline(s[1..]); }
  }

  lemma {:induction false} SegsConcat(a: string, b: string)
    ensures Segs(a + ("\n" + b)) == Segs(a) + Segs(b)
  {
    if a == "" {
      assert a + ("\n" + b) == "\n" + b && ("\n" + b)[1..] == b;
    } else {
      var s := a + ("\n" + b);
      assert s[1..] == a[1..] + ("\n" + b) && s[0] == a[0];
      SegsConcat(a[1..], b);
      GrowFirst(Segs(a[1..]), Segs(b), [a[0]]);
    }
  }

  lemma GrowFirst(g: seq<string>, h: seq<string>, c: string)
    requires g != []
    ensures [c + (g + h)[0]] + (g + h)[1..] == [c + g[0]] + g[1..] + h
    ensures [""] + (g + h) == [""] + g + h
  {
    assert (g + h)[1..] == g[1..] + h;
  }

  lemma {:induction false} SegsSnoc(s: string, c: char)
    requires c != '\n'
    ensures Segs(s + [c]) == GrowLast(Segs(s), c)
  {
    if s == "" {
      assert s + [c] == [c];
      SegsPlain([c]);
      assert "" + [c] == [c];
    } else {
      assert (s + [c])[1..] == s[1..] + [c];
      SegsSnoc(s[1..], c);
      GrowBoth(Segs(s[1..]), [s[0]], c);
    }
  }

  /** The last segment extended by one character. */
  function GrowLast(g: seq<string>, c: char): seq<string>
    requires g != []
  {
    g[..|g| - 1] + [g[|g| - 1] + [c]]
  }

  lemma GrowBoth(g: seq<string>, pre: string, c: char)
    requires g != []
    ensures [pre + GrowLast(g, c)[0]] + GrowLast(g, c)[1..] == GrowLast([pre + g[0]] + g[1..], c)
    ensures [""] + GrowLast(g, c) == GrowLast([""] + g, c)
  {
    if |g| == 1 { assert pre + (g[0] + [c]) == pre + g[0] + [c]; }
  }

  lemma TrimLead(c: char, s: string)
    requires IsSpace(c)
    ensures Trim([c] + s) == Trim(s)
  {
    assert ([c] + s)[1..] == s;
  }

  lemma TrimCr(line: string)
    ensures Trim(StripCr(line)) == Trim(line)
  {
    if StripCr(line) != line {
      TrimDropsLast(line);
    }
  }

  lemma {:induction false} TrimDropsLast(s: string)
    requires s != "" && IsSpace(s[|s| - 1])
    ensures Trim(s[..|s| - 1]) == Trim(s)
    decreases |s|
  {
    if |s| == 1 {
      assert s[..0] == "" && s[1..] == "";
    } else if IsSpace(s[0]) {
      var t := s[..|s| - 1];
      assert t[1..] == s[1..][..|s| - 2];
      TrimDropsLast(s[1..]);
    } else {
      assert TrimStart(s) == s && TrimStart(s[..|s| - 1]) == s[..|s| - 1];
    }
  }

  lemma {:induction false} TrimOfTrimEnd(s: string)
    ensures Trim(TrimEnd(s)) == Trim(s)
    decreases |s|
  {
    if s != "" && IsSpace(s[|s| - 1]) {
      TrimDropsLast(s);
      TrimOfTrimEnd(s[..|s| - 1]);
    }
  }

  lemma {:induction false} TrimEndTwice(s: string)
    ensures TrimEnd(TrimEnd(s)) == TrimEnd(s)
  {
    if s != "" && IsSpace(s[|s| - 1]) { TrimEndTwice(s[..|s| - 1]); }
  }

  lemma TrimStartDropsFirst(c: char, s: string)
    requires TrimEnd([c] + s) == [c] + s && IsSpace(c)
    ensures s != "" && TrimEnd(s) == s
  {
    var t := [c] + s;
    assert !IsSpace(t[|t| - 1]);
    assert s != "" ==> s[|s| - 1] == t[|t| - 1];
  }

  /** Blank means empty once trailing white space is gone. */
  lemma BlankIsEmpty(line: string)
    ensures Trim(line) == "" <==> TrimEnd(line) == ""
  {
    TrimOfTrimEnd(line);
    var e := TrimEnd(line);
    if e != "" { NonBlank(e); }
  }

  lemma {:induction false} NonBlank(e: string)
    requires e != "" && !IsSpace(e[|e| - 1])
    ensures Trim(e) != ""
  {
    if IsSpace(e[0]) { NonBlank(e[1..]); } else { assert TrimStart(e) == e; }
  }

  // -- the collapsing loop

  ghost predicate LoopState(out: string, prevBlank: bool, ok: string -> bool) {
    && TidySegs(Segs(out)) && Calm(Segs(out), ok)
    && (out != "" ==> (Segs(out)[|Segs(out)| - 1] == "" <==> prevBlank))
  }

  predicate PlainLines(lines: seq<string>, ok: string -> bool) {
    forall i :: 0 <= i < |lines| ==> NoNewline(lines[i]) && ok(Trim(lines[i]))
  }

  lemma AppendLine(out: string, line: string, prevBlank: bool, ok: string -> bool)
    requires LoopState(out, prevBlank, ok) && NoNewline(line) && ok(Trim(line))
    requires !(Trim(line) == "" && prevBlank)
    ensures LoopState(out + (if out == "" then "" else "\n") + TrimEnd(line), Trim(line) == "", ok)
  {
    hide Trim, TrimEnd, TidySegs, Calm;
    var e := TrimEnd(line);
    EndKeepsLine(line);
    SegsPlain(e);
    TrimOfTrimEnd(line);
    TrimEndTwice(line);
    BlankIsEmpty(line);
    if out == "" {
      assert out + "" + e == e;
      OneSeg(e, ok);
    } else {
      assert out + "\n" + e == out + ("\n" + e);
      SegsConcat(out, e);
      AppendSeg(Segs(out), e, ok);
    }
  }

  lemma EndKeepsLine(line: string)
    requires NoNewline(line)
    ensures NoNewline(TrimEnd(line))
  {
  }

  lemma OneSeg(e: string, ok: string -> bool)
    requires TrimEnd(e) == e && ok(Trim(e))
    ensures TidySegs([e]) && Calm([e], ok)
  {
    hide Trim, TrimEnd;
  }

  lemma AppendSeg(g: seq<string>, e: string, ok: string -> bool)
    requires g != [] && TidySegs(g) && Calm(g, ok) && TrimEnd(e) == e && ok(Trim(e))
    requires g[|g| - 1] != "" || e != ""
    ensures TidySegs(g + [e]) && Calm(g + [e], ok)
  {
    hide Trim, TrimEnd;
    var h := g + [e];
    assert forall i :: 0 <= i < |h| ==> h[i] == if i < |g| then g[i] else e;
  }

  lemma {:induction false} CollapseKeepsState(lines: seq<string>, out: string, prevBlank: bool, ok: string -> bool)
    requires LoopState(out, prevBlank, ok) && PlainLines(lines, ok)
    ensures var r := CollapseFrom(lines, out, prevBlank); TidySegs(Segs(r)) && Calm(Segs(r), ok)
    decreases |lines|
  {
    if lines != [] {
      assert NoNewline(lines[0]) && ok(Trim(lines[0]));
      var blank := Trim(lines[0]) == "";
      if blank && prevBlank {
        CollapseKeepsState(lines[1..], out, prevBlank, ok);
      } else {
        AppendLine(out, lines[0], prevBlank, ok);
        CollapseKeepsState(lines[1..], out + (if out == "" then "" else "\n") + TrimEnd(lines[0]), blank, ok);
      }
    }
  }

  lemma {:induction false} TrimStartKeeps(s: string, ok: string -> bool)
    requires TidySegs(Segs(s)) && Calm(Segs(s), ok)
    ensures TidySegs(Segs(TrimStart(s))) && Calm(Segs(TrimStart(s)), ok)
  {
    if s != "" && IsSpace(s[0]) {
      var g := Segs(s[1..]);
      var all := Segs(s);
      if s[0] == '\n' {
        assert forall i :: 0 <= i < |g| ==> g[i] == all[i + 1];
      } else {
        assert all[0] == [s[0]] + g[0];
        TrimStartDropsFirst(s[0], g[0]);
        TrimLead(s[0], g[0]);
        assert forall i :: 0 < i < |g| ==> g[i] == all[i];
      }
      TrimStartKeeps(s[1..], ok);
    }
  }

  lemma {:induction false} TrimEndKeepsLines(s: string, ok: string -> bool)
    requires TidySegs(Segs(s)) && Calm(Segs(s), ok)
    ensures TidySegs(Segs(TrimEnd(s))) && Calm(Segs(TrimEnd(s)), ok)
  {
    if s != "" && IsSpace(s[|s| - 1]) {
      var t, c := s[..|s| - 1], s[|s| - 1];
      assert s == t + [c];
      if c == '\n' {
        SegsConcat(t, "");
        assert t + ("\n" + "") == s;
        assert forall i :: 0 <= i < |Segs(t)| ==> Segs(t)[i] == Segs(s)[i];
      } else {
        SegsSnoc(t, c);
        LastSegTidy(Segs(s), Segs(t)[|Segs(t)| - 1], c);
      }
      TrimEndKeepsLines(t, ok);
    }
  }

  lemma LastSegTidy(g: seq<string>, last: string, c: char)
    requires TidySegs(g) && g != [] && g[|g| - 1] == last + [c]
    ensures !IsSpace(c)
  {
    var e := g[|g| - 1];
    LastNotSpace(e);
  }

  lemma LastNotSpace(e: string)
    requires e != "" && TrimEnd(e) == e
    ensures !IsSpace(e[|e| - 1])
  {
  }

  lemma {:induction false} LinesPlain(g: seq<string>, ok: string -> bool)
    requires forall i :: 0 <= i < |g| ==> NoNewline(g[i])
    ensures forall i :: 0 <= i < |LinesOf(g)| ==> NoNewline(LinesOf(g)[i])
    ensures Calm(g, ok) ==> PlainLines(LinesOf(g), ok)
  {
    if |g| > 1 {
      LinesPlain(g[1..], ok);
      TrimCr(g[0]);
    }
  }

  lemma {:induction false} KeptArePlain(lines: seq<string>, num: Decoder, ok: string -> bool)
    requires forall i :: 0 <= i < |lines| ==> NoNewline(lines[i]) && (IsLeak(Trim(lines[i]), num) || ok(Trim(lines[i])))
    ensures PlainLines(KeepLines(lines, num), ok)
  {
    hide IsLeak;
    if lines != [] { KeptArePlain(lines[1..], num, ok); }
  }

  lemma {:induction false} SegsOfJoin(lines: seq<string>)
    requires lines != [] && forall i :: 0 <= i < |lines| ==> NoNewline(lines[i])
    ensures Segs(JoinLines(lines)) == lines
  {
    SegsPlain(lines[0]);
    if |lines| > 1 {
      SegsOfJoin(lines[1..]);
      SegsConcat(lines[0], JoinLines(lines[1..]));
      assert lines == [lines[0]] + lines[1..];
    }
  }

  /** Whatever goes in, the cleaned-up text is tidy, and its lines are, trimmed, lines that went in and were
      kept: whatever holds of those and of the empty line holds of these. */
  lemma TidyLinesKeep(x: string, num: Decoder, ok: string -> bool)
    requires ok("") && forall i :: 0 <= i < |Segs(x)| ==> IsLeak(Trim(Segs(x)[i]), num) || ok(Trim(Segs(x)[i]))
    ensures Tidy(TidyLines(x, num)) && Calm(Segs(TidyLines(x, num)), ok)
  {
    hide IsLeak;
    var kept := KeepLines(Lines(x), num);
    SegsNoNewline(x);
    LinesPlain(Segs(x), line => IsLeak(line, num) || ok(line));
    KeptArePlain(Lines(x), num, ok);
    var j := JoinLines(kept);
    JoinedArePlain(kept, ok);
    var out := CollapseFrom(Lines(j), "", false);
    EmptyState(ok);
    CollapseKeepsState(Lines(j), "", false, ok);
    TrimStartKeeps(out, ok);
    TrimEndKeepsLines(TrimStart(out), ok);
    TrimmedIsTrimmed(out);
  }

  lemma EmptyState(ok: string -> bool)
    requires ok("")
    ensures LoopState("", false, ok)
  {
  }

  lemma JoinedArePlain(kept: seq<string>, ok: string -> bool)
    requires PlainLines(kept, ok)
    ensures PlainLines(Lines(JoinLines(kept)), ok)
  {
    if kept != [] {
      SegsOfJoin(kept);
      LinesPlain(kept, ok);
    }
  }

  /** The output of the sanitizer is tidy, and no line of it is, after trimming, one JSON object that
      is not a tool call. */
  lemma SanitizeLeavesNoLeak(text: string, num: Decoder)
    ensures Tidy(SanitizeProse(text, num)) && LeakFree(SanitizeProse(text, num), num)
  {
    hide TidyLines, Tidy;
    EmptyIsNoLeak(num);
    TidyLinesKeep(StripEchoesOf(StripTags(text), num), num, NoLeak(num));
  }

  // -------------------------------------------------- what it leaves unchanged

  lemma {:induction false} TidyLinesOf(g: seq<string>)
    requires TidySegs(g) && g != [] && g[|g| - 1] != ""
    ensures LinesOf(g) == g
  {
    if |g| > 1 {
      TidyLinesOf(g[1..]);
      assert TrimEnd(g[0]) == g[0];
      assert StripCr(g[0]) == g[0];
      assert g == [g[0]] + g[1..];
    }
  }

  lemma {:induction false} CalmKept(g: seq<string>, num: Decoder)
    requires Calm(g, NoLeak(num))
    ensures KeepLines(g, num) == g
  {
    hide IsLeak;
    if g != [] {
      CalmKept(g[1..], num);
      assert g == [g[0]] + g[1..];
    }
  }

  lemma {:induction false} TidyCollapse(g: seq<string>, out: string, prevBlank: bool)
    requires TidySegs(g) && out != "" && (prevBlank && g != [] ==> g[0] != "")
    ensures CollapseFrom(g, out, prevBlank) == out + Led(g)
    decreases |g|
  {
    if g == [] {
      assert out + "" == out;
    } else {
      assert TrimEnd(g[0]) == g[0];
      BlankIsEmpty(g[0]);
      TidyCollapse(g[1..], out + "\n" + g[0], g[0] == "");
      assert out + "\n" + g[0] + Led(g[1..]) == out + ("\n" + g[0] + Led(g[1..]));
    }
  }

  lemma SegEnds(s: string)
    requires s != "" && Trimmed(s)
    ensures var g := Segs(s); g[0] != "" && g[|g| - 1] != ""
  {
    var t, c := s[..|s| - 1], s[|s| - 1];
    assert s == t + [c];
    SegsSnoc(t, c);
  }

  /** Tidy text without leaking lines passes the clean-up unchanged. */
  lemma TidyUnchanged(x: string, num: Decoder)
    requires Tidy(x) && LeakFree(x, num)
    ensures TidyLines(x, num) == x
  {
    hide IsLeak;
    if x != "" {
      var g := Segs(x);
      SegEnds(x);
      TidyLinesOf(g);
      CalmKept(g, num);
      SegsJoin(x);
      LedJoin(g);
      assert ("\n" + JoinLines(g))[1..] == JoinLines(g) && ("\n" + x)[1..] == x;
      FirstCollapse(g);
      assert JoinLines(g) == x;
      TrimOfTrimmed(x);
    }
  }

  lemma FirstCollapse(g: seq<string>)
    requires TidySegs(g) && g != [] && g[0] != ""
    ensures CollapseFrom(g, "", false) == JoinLines(g)
  {
    assert TrimEnd(g[0]) == g[0];
    BlankIsEmpty(g[0]);
    assert "" + "" + g[0] == g[0];
    TidyCollapse(g[1..], g[0], false);
    LedJoin(g);
    Unlead(JoinLines(g), g[0], Led(g[1..]));
  }

  lemma Unlead(j: string, first: string, tail: string)
    requires "\n" + j == "\n" + first + tail
    ensures j == first + tail
  {
    assert ("\n" + j)[1..] == j && ("\n" + first + tail)[1..] == first + tail;
  }

  lemma TrimOfTrimmed(x: string)
    requires Trimmed(x)
    ensures Trim(x) == x
  {
    TrimCore("", x, "");
    assert "" + x + "" == x;
  }

  /** Text the sanitizer has nothing to say about. */
  ghost predicate Clean(text: string, num: Decoder) {
    && FirstSpan(text, RESULT_OPEN, RESULT_CLOSE).None?
    && FirstSpan(text, CALL_OPEN, CLOSE_TAG).None?
    && NoEcho(text, num)
    && LeakFree(text, num)
    && Tidy(text)
  }

  lemma {:induction false} SubseqLength<T>(a: seq<T>, b: seq<T>)
    requires Subseq(a, b)
    ensures |a| <= |b| && (|a| == |b| ==> a == b)
    decreases |b|
  {
    if a != [] {
      if a[0] == b[0] && Subseq(a[1..], b[1..]) {
        SubseqLength(a[1..], b[1..]);
      } else {
        SubseqLength(a, b[1..]);
      }
    }
  }

  lemma {:induction false} SpanStripped(text: string, open: string, close: string)
    requires FirstSpan(text, open, close).Some?
    ensures |StripSpansOf(text, open, close)| < |text|
    decreases |text|
  {
    var (a, b) := FirstSpan(text, open, close).value;
    SpansDelete(text[b..], open, close);
    SubseqLength(StripSpansOf(text[b..], open, close), text[b..]);
  }

  /** Exactly the clean texts pass through unchanged. */
  lemma UnchangedIffClean(text: string, num: Decoder)
    ensures SanitizeProse(text, num) == text <==> Clean(text, num)
  {
    if Clean(text, num) { CleanUnchanged(text, num); }
    if SanitizeProse(text, num) == text { UnchangedClean(text, num); }
  }

  lemma CleanUnchanged(text: string, num: Decoder)
    requires Clean(text, num)
    ensures SanitizeProse(text, num) == text
  {
    hide TidyLines, FirstEcho, LeakFree, Tidy;
    FirstEchoExact(text, num);
    TidyUnchanged(text, num);
  }

  lemma UnchangedClean(text: string, num: Decoder)
    requires SanitizeProse(text, num) == text
    ensures Clean(text, num)
  {
    hide TidyLines, FirstEcho, LeakFree, Tidy;
    SanitizeLeavesNoLeak(text, num);
    var t1 := StripSpansOf(text, RESULT_OPEN, RESULT_CLOSE);
    var t2 := StripSpansOf(t1, CALL_OPEN, CLOSE_TAG);
    var t3 := StripEchoesOf(t2, num);
    SpansDelete(text, RESULT_OPEN, RESULT_CLOSE);
    SpansDelete(t1, CALL_OPEN, CLOSE_TAG);
    EchoesDelete(t2, num);
    TidyLinesDelete(t3, num);
    SubseqLength(t1, text);
    SubseqLength(t2, t1);
    SubseqLength(t3, t2);
    SubseqLength(text, t3);
    if FirstSpan(text, RESULT_OPEN, RESULT_CLOSE).Some? { SpanStripped(text, RESULT_OPEN, RESULT_CLOSE); }
    if FirstSpan(text, CALL_OPEN, CLOSE_TAG).Some? { SpanStripped(text, CALL_OPEN, CLOSE_TAG); }
    StripEchoesLeavesNone(text, num);
  }

  /** A second pass changes nothing exactly when the first left no complete span and no removable
      fragment; tidiness and leak-freedom always hold after one pass. */
  lemma IdempotentIff(text: string, num: Decoder)
    ensures var once := SanitizeProse(text, num);
            SanitizeProse(once, num) == once <==>
            && FirstSpan(once, RESULT_OPEN, RESULT_CLOSE).None?
            && FirstSpan(once, CALL_OPEN, CLOSE_TAG).None?
            && NoEcho(once, num)
  {
    hide TidyLines, FirstEcho, LeakFree, Tidy;
    SanitizeLeavesNoLeak(text, num);
    UnchangedIffClean(SanitizeProse(text, num), num);
  }

  // ------------------------------------------------- a second pass can delete more

  lemma SpanFound(s: string, a: string, open: string, mid: string, close: string, rest: string)
    requires s == a + open + ">" + (mid + close + rest) && '>' !in open
    requires forall j: nat :: j < |a| ==> !OccursAt(s, open, j)
    ensures var r := FirstSpan(s, open, close);
            r.Some? && r.value.0 == |a| && (mid == "" ==> r.value.1 == |a| + |open| + 1 + |close|)
  {
    assert s[|a|..|a| + |open|] == open;
    FoundAt(s, open, |a|);
    var t := s[|a|..];
    var u := mid + close + rest;
    assert t == open + ">" + u;
    forall j: nat | j < |open| ensures !OccursAt(t, ">", j) { assert t[j..j + 1][0] == open[j]; }
    assert t[|open|..|open| + 1] == ">";
    FoundAt(t, ">", |open|);
    assert s[|a| + |open| + 1..] == u;
    assert u[|mid|..|mid| + |close|] == close;
    FindIsFirst(u, close);
    assert OccursAt(u, close, |mid|);
    if mid == "" { FoundAt(u, close, 0); }
  }

  lemma NotHere(s: string, open: string, k: nat, i: nat)
    requires k < |open| && (i + k < |s| && s[i] == open[0] ==> s[i + k] != open[k])
    ensures !OccursAt(s, open, i)
  {
    if i + |open| <= |s| { assert s[i..i + |open|][0] == s[i] && s[i..i + |open|][k] == s[i + k]; }
  }

  lemma NoOpening(s: string, open: string, k: nat)
    requires k < |open| && forall i: nat :: i + k < |s| && s[i] == open[0] ==> s[i + k] != open[k]
    ensures Find(s, open).None?
  {
    forall i: nat ensures !OccursAt(s, open, i) { NotHere(s, open, k, i); }
    FindIsFirst(s, open);
  }

  const ECHOED := "<tool_result>x</tool_result>"
  const HEAD := "<tool_re"
  const TAIL := "sult>x</tool_result>"

  /** The same text with a complete span inside its opening tag. */
  const NESTED := HEAD + RESULT_OPEN + ">" + ("" + RESULT_CLOSE + TAIL)

  lemma NestedSpan()
    ensures FirstSpan(NESTED, RESULT_OPEN, RESULT_CLOSE) == Some((8, 35))
  {
    hide FirstSpan;
    forall j: nat | j < 8 ensures !OccursAt(NESTED, RESULT_OPEN, j) {
      assert NESTED[8] == RESULT_OPEN[0] == '<' && RESULT_OPEN[8] == 's';
      assert NESTED[j] == HEAD[j];
      NotHere(NESTED, RESULT_OPEN, 8, j);
    }
    SpanFound(NESTED, HEAD, RESULT_OPEN, "", RESULT_CLOSE, TAIL);
  }

  lemma Slices(a: string, b: string, c: string)
    ensures (a + b + c)[..|a|] == a && (a + b + c)[|a| + |b|..] == c
  {
  }

  lemma NestedStrips()
    ensures StripSpansOf(NESTED, RESULT_OPEN, RESULT_CLOSE) == HEAD + TAIL
  {
    hide FirstSpan;
    NestedSpan();
    TailHasNoSpan();
    var span := RESULT_OPEN + ">" + RESULT_CLOSE;
    assert NESTED == HEAD + span + TAIL;
    Slices(HEAD, span, TAIL);
  }

  lemma TailHasNoSpan()
    ensures FirstSpan(TAIL, RESULT_OPEN, RESULT_CLOSE).None?
  {
    assert forall i: nat :: i + 1 < |TAIL| && TAIL[i] == '<' ==> TAIL[i + 1] != 't';
    NoOpening(TAIL, RESULT_OPEN, 1);
  }

  lemma EchoedSpan()
    ensures FirstSpan(ECHOED, RESULT_OPEN, RESULT_CLOSE).Some?
  {
    assert ECHOED == "" + RESULT_OPEN + ">" + ("x" + RESULT_CLOSE + "");
    SpanFound(ECHOED, "", RESULT_OPEN, "x", RESULT_CLOSE, "");
  }

  lemma EchoedIsNoCall()
    ensures FirstSpan(ECHOED, CALL_OPEN, CLOSE_TAG).None?
  {
    assert forall i: nat :: i + 6 < |ECHOED| && ECHOED[i] == '<' ==> ECHOED[i + 6] != 'c';
    NoOpening(ECHOED, CALL_OPEN, 6);
  }

  lemma NoColonNoEcho(s: string, num: Decoder)
    requires ':' !in s
    ensures NoEcho(s, num)
  {
  }

  lemma OneLine(s: string, num: Decoder)
    requires NoNewline(s) && s != "" && s[0] == '<' && Trimmed(s)
    ensures LeakFree(s, num) && Tidy(s)
  {
    hide FromStr, ExtractBare;
    SegsPlain(s);
    TrimOfTrimmed(s);
    TrimmedIsTrimmed(s);
    assert TrimEnd(s) == s by { TrimEndTrimmed(s); }
  }

  lemma TrimEndTrimmed(s: string)
    requires s != "" && Trimmed(s)
    ensures TrimEnd(s) == s
  {
  }

  lemma EchoedPlain(num: Decoder)
    ensures NoEcho(ECHOED, num) && LeakFree(ECHOED, num) && Tidy(ECHOED)
  {
    hide NoEcho, LeakFree, Tidy;
    assert ':' !in ECHOED && NoNewline(ECHOED) && Trimmed(ECHOED);
    NoColonNoEcho(ECHOED, num);
    OneLine(ECHOED, num);
  }

  lemma SpanLeft(text: string, left: string, num: Decoder)
    requires StripSpansOf(text, RESULT_OPEN, RESULT_CLOSE) == left
    requires FirstSpan(left, CALL_OPEN, CLOSE_TAG).None? && NoEcho(left, num) && LeakFree(left, num) && Tidy(left)
    ensures SanitizeProse(text, num) == left
  {
    hide TidyLines, FirstEcho, NoEcho, LeakFree, Tidy, FirstSpan;
    FirstEchoExact(left, num);
    TidyUnchanged(left, num);
  }

  /** Sanitizing once is not always enough: what one pass leaves, a second can still delete. */
  lemma SecondPassDeletes(num: Decoder)
    ensures SanitizeProse(NESTED, num) == ECHOED && SanitizeProse(ECHOED, num) != ECHOED
  {
    hide SanitizeProse, NoEcho, LeakFree, Tidy, FirstSpan, StripSpansOf;
    NestedStrips();
    assert HEAD + TAIL == ECHOED;
    EchoedSpan();
    EchoedIsNoCall();
    EchoedPlain(num);
    SpanLeft(NESTED, ECHOED, num);
    UnchangedIffClean(ECHOED, num);
  }
}
