/** Neither half of the condition for sanitizing once can be dropped (`inference.rs`): a text that fails
    only one half, for each, and a second pass that deletes more. */
module SanitizerLimits {
  import opened Text
  import opened Json
  import opened ToolCall
  import opened Sanitizer
  import opened SanitizerText
  import opened SanitizerTwice

  // ------------------------------------------------------ an unsettled label

  const FIRST := "calculate:{"

  /** A label whose object holds a line that is itself dropped, and the text without that line. */
  const BROKEN := FIRST + ("\n" + ("{}" + ("\n" + "}")))
  const MENDED := FIRST + ("\n" + "}")

  lemma EmptyObject(g: string, num: Decoder)
    requires JsonWs(g)
    ensures ObjectText("{" + g + "}", num)
  {
    var c := CObj(g, MNil);
    assert "}" + "" == "}" && "{" + (g + "}") == "{" + g + "}";
    assert TextOf(c, "") == "{" + (g + ("}" + ""));
    assert Depth(c) == 1 + MembersDepth(c.members) && MembersDepth(c.members) == 0;
    assert Loose(c) && Strict(c, num) && Depth(c) <= MAX_DEPTH;
  }

  lemma SecondBrace(o: string, num: Decoder)
    requires |o| > 2 && o[0] == '{' && o[1] == '\n' && o[2] == '{'
    ensures !ObjectText(o, num)
  {
    if ObjectText(o, num) {
      var c: Cst :| Loose(c) && c.CObj? && Strict(c, num) && Depth(c) <= MAX_DEPTH && o == TextOf(c, "");
      var ws, tail := ObjectParts(c);
      AfterBrace(ws, tail, o);
    }
  }

  lemma ObjectParts(c: Cst) returns (ws: string, tail: string)
    requires Loose(c) && c.CObj?
    ensures TextOf(c, "") == "{" + (ws + tail) && JsonWs(ws) && tail != "" && (tail[0] == '"' || tail[0] == '}')
  {
    if c.members.MNil? {
      ws, tail := c.gap, "}" + "";
    } else {
      ws, tail := c.members.pre, MembersText(c.members, "")[|c.members.pre|..];
      assert LooseMembers(c.members) && MembersText(c.members, "") == ws + tail;
    }
  }

  lemma AfterBrace(ws: string, tail: string, o: string)
    requires JsonWs(ws) && tail != "" && !IsJsonWs(tail[0]) && o == "{" + (ws + tail)
    ensures |o| > 2 && o[1] == '\n' && !IsJsonWs(o[2]) ==> o[2] == tail[0]
  {
  }

  /** The shape of the broken text that matters: one colon, after one word, and no tag. */
  predicate OneLabel(s: string) {
    && |s| > 12 && '<' !in s
    && (forall i :: 0 <= i < |s| ==> (s[i] == ':' <==> i == 9))
    && (forall i :: 0 <= i < 9 ==> IsIdentChar(s[i]))
    && s[10] == '{' && s[11] == '\n' && s[12] == '{'
  }

  lemma BrokenShape()
    ensures OneLabel(BROKEN)
  {
    assert forall i :: 0 <= i < |FIRST| ==> BROKEN[i] == FIRST[i];
  }

  lemma LabelEnds(s: string, t: ToolName, a: nat)
    requires OneLabel(s) && OccursAt(s, Label(t), a)
    ensures a + |Label(t)| == 10
  {
    hide ToolName.Ref;
    LastOf(s, Label(t), a);
  }

  lemma NoEchoThere(s: string, num: Decoder)
    requires OneLabel(s)
    ensures NoEcho(s, num)
  {
    hide RemovableAt, ToolName.Ref, ObjectText, LineRest, OneLabel;
    forall t: ToolName, a: nat ensures !RemovableAt(s, t, a, num) {
      if RemovableAt(s, t, a, num) {
        var j, e := EchoPlace(s, t, a, num);
        LabelEnds(s, t, a);
        NoObjectThere(s, j, e, num);
      }
    }
  }

  lemma FirstIsSpace(s: string, i: nat, j: nat)
    requires i < j <= |s| && AllSpace(s[i..j])
    ensures IsSpace(s[i])
  {
    assert s[i..j][0] == s[i];
  }

  lemma NoObjectThere(s: string, j: nat, e: nat, num: Decoder)
    requires OneLabel(s) && 10 <= j <= e <= |s| && AllSpace(s[10..j])
    ensures !ObjectText(s[j..e], num)
  {
    hide ObjectText;
    if 10 < j { FirstIsSpace(s, 10, j); }
    var o := s[j..e];
    if ObjectText(o, num) {
      ObjectLast(o, num);
      if |o| > 2 { SecondBrace(o, num); }
    }
  }

  lemma ThreeLines(a: string, b: string, c: string)
    requires NoNewline(a) && NoNewline(b) && NoNewline(c)
    ensures Segs(a + ("\n" + (b + ("\n" + c)))) == [a, b, c] && Segs(a + ("\n" + c)) == [a, c]
  {
    hide Segs;
    SegsPlain(a);
    SegsPlain(b);
    SegsPlain(c);
    SegsConcat(b, c);
    SegsConcat(a, b + ("\n" + c));
    SegsConcat(a, c);
  }

  lemma BrokenLines()
    ensures Segs(BROKEN) == Lines(BROKEN) == [FIRST, "{}", "}"] && Segs(MENDED) == Lines(MENDED) == [FIRST, "}"]
  {
    hide Segs, LinesOf;
    ThreeLines(FIRST, "{}", "}");
    LinesOfThree(FIRST, "{}", "}");
  }

  lemma LinesOfThree(a: string, b: string, c: string)
    requires StripCr(a) == a && StripCr(b) == b && c != ""
    ensures LinesOf([a, b, c]) == [a, b, c] && LinesOf([a, c]) == [a, c]
  {
    assert [a, b, c][1..] == [b, c] && [b, c][1..] == [c] && [a, c][1..] == [c];
    assert LinesOf([c]) == [c];
    assert LinesOf([b, c]) == [b, c];
  }

  lemma OnlyMiddleLeaks(num: Decoder)
    ensures IsLeak(Trim("{}"), num) && !IsLeak(Trim(FIRST), num) && !IsLeak(Trim("}"), num)
  {
    TrimOfTrimmed("{}");
    TrimOfTrimmed(FIRST);
    TrimOfTrimmed("}");
    EmptyObjectLeaks(num);
    LeakIffBareObject("{}", num);
  }

  lemma EmptyObjectLeaks(num: Decoder)
    ensures BareNonCallObject("{}", num)
  {
    var c := CObj("", MNil);
    assert TextOf(c, "") == "{" + ("" + ("}" + "")) == "{}";
    assert ValueOf(c, num) == Obj(map[]);
    assert Loose(c) && c.CObj? && Strict(c, num) && Depth(c) <= MAX_DEPTH && !CallShape(ValueOf(c, num));
  }

  lemma MendedIsTidy(num: Decoder)
    ensures Tidy(MENDED) && LeakFree(MENDED, num)
  {
    hide IsLeak;
    BrokenLines();
    OnlyMiddleLeaks(num);
    assert TrimEnd(FIRST) == FIRST && TrimEnd("}") == "}";
  }

  lemma BrokenTidied(num: Decoder)
    ensures TidyLines(BROKEN, num) == MENDED
  {
    hide IsLeak, Collapse, Tidy, LeakFree, Lines, Segs;
    BrokenLines();
    OnlyMiddleLeaks(num);
    var g := [FIRST, "{}", "}"];
    assert g[1..] == ["{}", "}"] && g[1..][1..] == ["}"] && ["}"][1..] == [] && [FIRST, "}"][1..] == ["}"];
    assert KeepLines([], num) == [] && KeepLines(["}"], num) == ["}"];
    assert KeepLines(g, num) == [FIRST, "}"] == KeepLines([FIRST, "}"], num);
    MendedIsTidy(num);
    TidyUnchanged(MENDED, num);
  }

  lemma NoTagNoSpan(s: string, open: string, close: string)
    requires '<' !in s && open != "" && open[0] == '<'
    ensures FirstSpan(s, open, close).None?
  {
    FindIsFirst(s, open);
    if i: nat :| OccursAt(s, open, i) { HeadOf(s, open, i); }
  }

  /** A label whose object is left open on its line: no tag is torn, and yet a second pass deletes more. */
  lemma UnsettledSecondPass(num: Decoder)
    ensures NotTorn(BROKEN) && !LabelsSettled(BROKEN)
    ensures SanitizeProse(BROKEN, num) == MENDED && SanitizeProse(MENDED, num) != MENDED
  {
    hide NoEcho, Tidy, LeakFree, StripSpansOf, FirstEcho;
    BrokenStages(num);
    BrokenTidied(num);
    MendedEchoes(num);
    UnchangedIffClean(MENDED, num);
    BrokenIsWhole();
    if LabelsSettled(BROKEN) { IdempotentWhen(BROKEN, num); }
  }

  lemma BrokenStages(num: Decoder)
    ensures StripEchoesOf(StripTags(BROKEN), num) == BROKEN
  {
    hide FirstSpan, FirstEcho, NoEcho;
    NoTagNoSpan(BROKEN, RESULT_OPEN, RESULT_CLOSE);
    NoTagNoSpan(BROKEN, CALL_OPEN, CLOSE_TAG);
    BrokenShape();
    NoEchoThere(BROKEN, num);
    FirstEchoExact(BROKEN, num);
  }

  lemma MendedEchoes(num: Decoder)
    ensures !NoEcho(MENDED, num)
  {
    hide ObjectText, RemovableAt;
    var t := Calculate;
    assert MENDED[..10] == Label(t) == "calculate:";
    assert MENDED[10..13] == "{" + "\n" + "}" && MENDED[10..10] == "" && MENDED[13..] == "";
    EmptyObject("\n", num);
    LineRestIs("", "");
    assert EchoAt(MENDED, t, 0, 10, 13, num);
    EchoIff(MENDED, t, 0, 13, num);
    Removes(MENDED, t, 0, 13, num);
  }

  lemma BrokenIsWhole()
    ensures NotTorn(BROKEN)
  {
    hide Word, Stands, PieceAt, OneLabel;
    BrokenShape();
    forall w, k: nat, i: nat | Word(w) && 0 < k < |w| && Stands(BROKEN, w, k, i) ensures !PieceAt(BROKEN, i + k) {
      if PieceAt(BROKEN, i + k) { PieceInFront(BROKEN, i + k); }
    }
  }

  lemma PieceInFront(s: string, i: nat)
    requires OneLabel(s) && PieceAt(s, i)
    ensures i == 0
  {
    hide ToolName.Ref, IsIdentChar, Stands, OneLabel;
    var w :| Opening(w) && Stands(s, w, |w|, i);
    if t: ToolName :| w == Label(t) {
      LabelStands(s, t, i);
      LabelInFront(s, t, i);
    } else {
      TagNotThere(s, w, i);
    }
  }

  lemma LabelInFront(s: string, t: ToolName, i: nat)
    requires OneLabel(s) && LabelAt(s, t, i)
    ensures i == 0
  {
    hide ToolName.Ref, IsIdentChar, OneLabel;
    RefIsIdent(t);
    LabelEnds(s, t, i);
    if 0 < i { WordFirst(s, i - 1); }
  }

  lemma WordFirst(s: string, i: nat)
    requires OneLabel(s) && i < 9
    ensures IsIdentChar(s[i])
  {
  }

  lemma TagNotThere(s: string, w: string, i: nat)
    requires OneLabel(s) && (w == RESULT_OPEN || w == CALL_OPEN)
    ensures !Stands(s, w, |w|, i)
  {
    assert w[..|w|] == w;
    if OccursAt(s, w, i) { HeadOf(s, w, i); }
  }

  // -------------------------------------------------------------------- a torn tag

  lemma NoColonNoLabel(s: string)
    requires ':' !in s
    ensures LabelsSettled(s)
  {
    forall t: ToolName, i: nat ensures !LabelAt(s, t, i) {
      if LabelAt(s, t, i) {
        hide ToolName.Ref;
        LastOf(s, Label(t), i);
      }
    }
  }

  /** A tag cut short by another: every label is settled, for want of labels, and yet a second pass
      deletes more. */
  lemma TornSecondPass(num: Decoder)
    ensures !NotTorn(NESTED) && LabelsSettled(NESTED)
    ensures SanitizeProse(NESTED, num) == ECHOED && SanitizeProse(ECHOED, num) != ECHOED
  {
    hide NotTorn, LabelsSettled, SanitizeProse;
    assert ':' !in NESTED;
    NoColonNoLabel(NESTED);
    SecondPassDeletes(num);
    if NotTorn(NESTED) { IdempotentWhen(NESTED, num); }
  }
}
