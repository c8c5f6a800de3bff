/** Classifying one model generation: the wrapped, bare and function-call tool-call syntaxes
    of `inference.rs`. */
module ToolCall {
  import opened Text
  import opened Json
  import opened Scanner

  // ----------------------------------------------------------------- catalog

  datatype ToolName = StartTimer | ConvertUnits | ListManage | Calculate | DateMath {
    function Ref(): string {
      match this
      case StartTimer => "start_timer"
      case ConvertUnits => "convert_units"
      case ListManage => "list_manage"
      case Calculate => "calculate"
      case DateMath => "date_math"
    }
  }

  const ALL_TOOLS: seq<ToolName> := [StartTimer, ConvertUnits, ListManage, Calculate, DateMath]

  const OPEN_TAG := "<tool_call>"
  const CLOSE_TAG := "</tool_call>"

  /** What the turn machine consumes. */
  datatype GenOutput = Prose(text: string) | Call(name: string, args: Value) | Malformed(raw: string)

  // ---------------------------------------------------------- the three forms

  function ExtractToolCall(text: string, num: Decoder): Option<Value> {
    var open :- Find(text, OPEN_TAG);
    var start := open + |OPEN_TAG|;
    var len :- Find(text[start..], CLOSE_TAG);
    FromStr(Trim(text[start..start + len]), num)
  }

  /** A non-empty string `name` and a present `arguments`. */
  predicate CallShape(v: Value) {
    && v.Obj?
    && (match v.Get("name") case Some(Str(n)) => n != "" case _ => false)
    && v.Get("arguments").Some?
  }

  function ExtractBare(trimmed: string, num: Decoder): Option<Value> {
    var end :- ObjectEnd(trimmed);
    var value :- FromStr(trimmed[..end], num);
    if CallShape(value) then Some(value) else None
  }

  /** One `key: value` segment of an argument list after trimming. */
  function ParsePair(part: string, num: Decoder): Option<(string, Value)> {
    var (before, after) :- SplitFirst(part, ':');
    var key := Trim(before);
    if !IsIdent(key) then None
    else
      var v :- FromStr(Trim(after), num);
      Some((key, v))
  }

  function PairsFrom(parts: seq<string>, num: Decoder, acc: map<string, Value>): Option<map<string, Value>> {
    if parts == [] then Some(acc)
    else
      var part := Trim(parts[0]);
      if part == "" then PairsFrom(parts[1..], num, acc)
      else
        var (key, v) :- ParsePair(part, num);
        PairsFrom(parts[1..], num, acc[key := v])
  }

  function ParseKwargs(inner: string, num: Decoder): Option<Value> {
    var obj :- PairsFrom(SplitTop(inner, ','), num, map[]);
    Some(Obj(obj))
  }

  predicate Invokes(trimmed: string, t: ToolName) {
    var n := t.Ref();
    |trimmed| > |n| && trimmed[|n|] == '(' && StartsWith(trimmed, n)
  }

  function FindTool(trimmed: string, tools: seq<ToolName>): (r: Option<ToolName>)
    ensures r.Some? ==> Invokes(trimmed, r.value)
  {
    if tools == [] then None
    else if Invokes(trimmed, tools[0]) then Some(tools[0])
    else FindTool(trimmed, tools[1..])
  }

  function ExtractFunctionCall(trimmed: string, num: Decoder): Option<Value> {
    var t :- FindTool(trimmed, ALL_TOOLS);
    var rest := trimmed[|t.Ref()| + 1..];
    var close :- ParenEnd(rest);
    var args :- ParseKwargs(rest[..close], num);
    Some(Obj(map["name" := Str(t.Ref()), "arguments" := args]))
  }

  function Classify(v: Value, raw: string): GenOutput {
    var name := match v.Get("name") case Some(Str(n)) => n case _ => "";
    var args := match v.Get("arguments") case Some(a) => a case None => Obj(map[]);
    if name == "" then Malformed(raw) else Call(name, args)
  }

  /** `is_non_tool_call_json_leak`. */
  predicate IsLeak(trimmed: string, num: Decoder) {
    && ObjectEnd(trimmed) == Some(|trimmed|)
    && ExtractBare(trimmed, num).None?
    && FromStr(trimmed, num).Some?
  }

  function ParseGeneration(text: string, num: Decoder): GenOutput {
    if Find(text, OPEN_TAG).Some? then
      match ExtractToolCall(text, num)
      case Some(v) => Classify(v, text)
      case None => Malformed(text)
    else
      var trimmed := Trim(text);
      match ExtractBare(trimmed, num)
      case Some(v) => Classify(v, text)
      case None =>
        match ExtractFunctionCall(trimmed, num)
        case Some(v) => Classify(v, text)
        case None => if IsLeak(trimmed, num) then Malformed(text) else Prose(trimmed)
  }

  // ------------------------------------------------------ function-call syntax

  /** A printed argument `key: value`, with any white space between its parts. */
  datatype Arg = Arg(pre: string, key: string, mid: string, sep: string, val: Cst, post: string)

  predicate GoodArg(a: Arg, num: Decoder) {
    && AllSpace(a.pre) && IsIdent(a.key) && AllSpace(a.mid) && AllSpace(a.sep) && AllSpace(a.post)
    && Scalar(a.val) && Loose(a.val) && Strict(a.val, num)
  }

  predicate GoodArgs(args: seq<Arg>, num: Decoder) {
    forall i :: 0 <= i < |args| ==> GoodArg(args[i], num)
  }

  function ArgHead(a: Arg): string {
    a.pre + (a.key + a.mid) + ":" + a.sep
  }

  /** The argument's text followed by `k`. */
  function ArgText(a: Arg, k: string): string {
    ArgHead(a) + TextOf(a.val, a.post + k)
  }

  function ArgsText(args: seq<Arg>, k: string): string {
    if args == [] then k
    else ArgText(args[0], if |args| == 1 then k else "," + ArgsText(args[1..], k))
  }

  function ArgsValue(args: seq<Arg>, num: Decoder, acc: map<string, Value>): map<string, Value>
    requires GoodArgs(args, num)
  {
    if args == [] then acc
    else
      assert GoodArg(args[0], num);
      ArgsValue(args[1..], num, acc[args[0].key := ValueOf(args[0].val, num)])
  }

  function CallText(t: ToolName, gap: string, args: seq<Arg>, trailing: string): string {
    t.Ref() + ("(" + (gap + ArgsText(args, ")" + trailing)))
  }

  lemma Assoc(a: string, b: string, c: string)
    ensures a + (b + c) == a + b + c
  {
  }

  lemma {:induction false} ScalarSplit(c: Cst, j: string, k: string)
    requires Scalar(c)
    ensures TextOf(c, j + k) == TextOf(c, j) + k
  {
    match c
    case CLit(w) => assert w + (j + k) == w + j + k;
    case CNum(l) => assert l + (j + k) == l + j + k;
    case CStr(b) =>
      BodySplit(b, "\"" + (j + k));
      BodySplit(b, "\"" + j);
      assert "\"" + (BodyText(b, "") + ("\"" + (j + k))) == "\"" + (BodyText(b, "") + ("\"" + j)) + k;
  }

  lemma ArgSplit(a: Arg, j: string, k: string)
    requires Scalar(a.val)
    ensures ArgText(a, j + k) == ArgText(a, j) + k
  {
    ScalarSplit(a.val, a.post + j, k);
    assert a.post + (j + k) == a.post + j + k;
    assert ArgHead(a) + (TextOf(a.val, a.post + j) + k) == ArgHead(a) + TextOf(a.val, a.post + j) + k;
  }

  lemma {:induction false} ArgsSplit(args: seq<Arg>, k: string)
    requires forall i :: 0 <= i < |args| ==> Scalar(args[i].val)
    ensures ArgsText(args, k) == ArgsText(args, "") + k
  {
    if args == [] {
      assert "" + k == k;
    } else if |args| == 1 {
      ArgSplit(args[0], "", k);
      assert "" + k == k;
    } else {
      ArgsSplit(args[1..], k);
      var rest := ArgsText(args[1..], "");
      ArgSplit(args[0], "," + rest, k);
      assert "," + (rest + k) == "," + rest + k;
    }
  }

  /** Before the value an argument holds only identifier characters, white space and its colon. */
  lemma HeadChars(a: Arg, num: Decoder)
    requires GoodArg(a, num)
    ensures Quiet(ArgHead(a), PARENS) && forall i :: 0 <= i < |ArgHead(a)| ==> ArgHead(a)[i] != ','
  {
    var h := ArgHead(a);
    forall i | 0 <= i < |h|
      ensures IsSpace(h[i]) || IsIdentChar(h[i]) || h[i] == ':'
    {
      var n := |a.pre| + |a.key| + |a.mid|;
      if i < |a.pre| { assert h[i] == a.pre[i]; }
      else if i < |a.pre| + |a.key| { assert h[i] == a.key[i - |a.pre|]; }
      else if i < n { assert h[i] == a.mid[i - |a.pre| - |a.key|]; }
      else if i > n { assert h[i] == a.sep[i - n - 1]; }
    }
  }

  lemma ArgPast(a: Arg, k: string, num: Decoder)
    requires GoodArg(a, num)
    ensures Past(ArgText(a, k), k, Scan(1, Outside), PARENS)
  {
    var st := Scan(1, Outside);
    HeadChars(a, num);
    QuietPast(ArgHead(a), TextOf(a.val, a.post + k), st, PARENS);
    TreePast(a.val, a.post + k, 1, PARENS);
    QuietPast(a.post, k, st, PARENS);
  }

  lemma {:induction false} ArgsPast(args: seq<Arg>, k: string, num: Decoder)
    requires GoodArgs(args, num)
    ensures Past(ArgsText(args, k), k, Scan(1, Outside), PARENS)
  {
    hide Past, ArgText, GoodArg;
    if args != [] {
      assert GoodArg(args[0], num);
      if |args| == 1 {
        ArgPast(args[0], k, num);
      } else {
        var rest, st := ArgsText(args[1..], k), Scan(1, Outside);
        ArgPast(args[0], "," + rest, num);
        QuietPast(",", rest, st, PARENS);
        ArgsPast(args[1..], k, num);
        PastTrans(ArgsText(args, k), "," + rest, rest, st, PARENS);
        PastTrans(ArgsText(args, k), rest, k, st, PARENS);
      }
    } else {
      PastSelf(k, Scan(1, Outside), PARENS);
    }
  }

  lemma ArgJoins(a: Arg, k: string, cur: string, num: Decoder)
    requires GoodArg(a, num)
    ensures SplitFrom(ArgText(a, k), ',', cur, Outside) == SplitFrom(k, ',', cur + ArgText(a, ""), Outside)
  {
    var h := ArgHead(a);
    HeadChars(a, num);
    PlainJoins(h, TextOf(a.val, a.post + k), ',', cur);
    ValueJoins(a, k, cur + h, num);
    Assoc(cur, h, TextOf(a.val, "") + a.post);
    ScalarSplit(a.val, "", a.post);
    assert "" + a.post == a.post && a.post + "" == a.post;
  }

  lemma ValueJoins(a: Arg, k: string, cur: string, num: Decoder)
    requires GoodArg(a, num)
    ensures SplitFrom(TextOf(a.val, a.post + k), ',', cur, Outside) ==
            SplitFrom(k, ',', cur + (TextOf(a.val, "") + a.post), Outside)
  {
    ScalarJoins(a.val, a.post + k, ',', cur);
    PlainJoins(a.post, k, ',', cur + TextOf(a.val, ""));
    Assoc(cur, TextOf(a.val, ""), a.post);
  }

  /** The argument list splits into its arguments, quoted commas notwithstanding. */
  lemma {:induction false} ArgsSplitTop(args: seq<Arg>, cur: string, num: Decoder)
    requires GoodArgs(args, num) && args != []
    ensures SplitFrom(ArgsText(args, ""), ',', cur, Outside) ==
            [cur + ArgText(args[0], "")] + seq(|args| - 1, i requires 0 <= i < |args| - 1 => ArgText(args[i + 1], ""))
  {
    hide ArgText, GoodArg, SplitFrom;
    assert GoodArg(args[0], num);
    if |args| == 1 {
      ArgJoins(args[0], "", cur, num);
      SplitNothing(cur + ArgText(args[0], ""));
    } else {
      var rest := ArgsText(args[1..], "");
      ArgJoins(args[0], "," + rest, cur, num);
      SplitAtComma(rest, cur + ArgText(args[0], ""));
      ArgsSplitTop(args[1..], "", num);
      assert "" + ArgText(args[1], "") == ArgText(args[1], "");
    }
  }

  lemma SplitNothing(cur: string)
    ensures SplitFrom("", ',', cur, Outside) == [cur]
  {
  }

  lemma SplitAtComma(rest: string, cur: string)
    ensures SplitFrom("," + rest, ',', cur, Outside) == [cur] + SplitFrom(rest, ',', "", Outside)
  {
    assert ("," + rest)[1..] == rest;
  }

  lemma ScalarEnds(c: Cst)
    requires Loose(c) && Scalar(c)
    ensures var s := TextOf(c, ""); s != "" && Trimmed(s)
  {
    var s := TextOf(c, "");
    match c
    case CLit(w) => assert s == w;
    case CNum(l) => assert s == l;
    case CStr(b) =>
      BodySplit(b, "\"" + "");
      assert s[|s| - 1] == '"';
  }

  /** An argument's text without the white space around it. */
  function ArgCore(a: Arg): string {
    a.key + a.mid + (":" + (a.sep + TextOf(a.val, "")))
  }

  lemma Regroup(pre: string, name: string, sep: string, v: string, post: string)
    requires name != "" && v != ""
    ensures var core := name + (":" + (sep + v));
            && pre + name + ":" + sep + (v + post) == pre + core + post
            && core[0] == name[0] && core[|core| - 1] == v[|v| - 1]
  {
  }

  lemma ArgTrims(a: Arg, num: Decoder)
    requires GoodArg(a, num)
    ensures ArgCore(a) != "" && Trim(ArgText(a, "")) == ArgCore(a)
  {
    ScalarEnds(a.val);
    ScalarSplit(a.val, "", a.post);
    assert "" + a.post == a.post && a.post + "" == a.post;
    Regroup(a.pre, a.key + a.mid, a.sep, TextOf(a.val, ""), a.post);
    assert (a.key + a.mid)[0] == a.key[0];
    TrimCore(a.pre, ArgCore(a), a.post);
  }

  lemma CoreSplits(before: string, after: string)
    requires forall i :: 0 <= i < |before| ==> before[i] != '"' && before[i] != ':'
    ensures SplitFirst(before + (":" + after), ':') == Some((before, after))
  {
    var core := before + (":" + after);
    PlainJoins(before, ":" + after, ':', "");
    assert "" + before == before && (":" + after)[1..] == after;
    assert SplitTop(core, ':') == [before] + SplitFrom(after, ':', "", Outside);
    assert core[|before| + 1..] == after;
  }

  lemma PairSteps(part: string, before: string, after: string, num: Decoder)
    requires SplitFirst(part, ':') == Some((before, after)) && IsIdent(Trim(before)) && FromStr(Trim(after), num).Some?
    ensures ParsePair(part, num) == Some((Trim(before), FromStr(Trim(after), num).value))
  {
  }

  lemma PairReads(a: Arg, num: Decoder)
    requires GoodArg(a, num)
    ensures ParsePair(ArgCore(a), num) == Some((a.key, ValueOf(a.val, num)))
  {
    hide *;
    var v := TextOf(a.val, "");
    CoreOf(a, num);
    CoreSplits(a.key + a.mid, a.sep + v);
    KeyTrims(a.key, a.mid);
    ValueTrims(a.sep, a.val, num);
    PairSteps(ArgCore(a), a.key + a.mid, a.sep + v, num);
  }

  lemma CoreOf(a: Arg, num: Decoder)
    requires GoodArg(a, num)
    ensures ArgCore(a) == a.key + a.mid + (":" + (a.sep + TextOf(a.val, "")))
    ensures AllSpace(a.mid) && AllSpace(a.sep) && IsIdent(a.key)
    ensures forall i :: 0 <= i < |a.key + a.mid| ==> (a.key + a.mid)[i] != '"' && (a.key + a.mid)[i] != ':'
    ensures Loose(a.val) && Scalar(a.val) && Strict(a.val, num)
  {
    hide TextOf, Loose, Strict;
  }

  lemma KeyTrims(key: string, mid: string)
    requires IsIdent(key) && AllSpace(mid)
    ensures Trim(key + mid) == key
  {
    hide Trim;
    TrimCore("", key, mid);
    assert "" + key + mid == key + mid;
  }

  lemma ValueTrims(sep: string, c: Cst, num: Decoder)
    requires AllSpace(sep) && Loose(c) && Scalar(c) && Strict(c, num)
    ensures FromStr(Trim(sep + TextOf(c, "")), num) == Some(ValueOf(c, num))
  {
    hide Trim, FromStr, TextOf;
    ScalarEnds(c);
    TrimCore(sep, TextOf(c, ""), "");
    assert sep + TextOf(c, "") + "" == sep + TextOf(c, "");
    ScalarReads(c, num);
  }

  lemma ScalarReads(c: Cst, num: Decoder)
    requires Loose(c) && Scalar(c) && Strict(c, num)
    ensures FromStr(TextOf(c, ""), num) == Some(ValueOf(c, num))
  {
    FromStrText("", c, "", num);
    assert "" + TextOf(c, "") == TextOf(c, "");
  }

  lemma {:induction false} PairsRead(parts: seq<string>, args: seq<Arg>, num: Decoder, acc: map<string, Value>)
    requires GoodArgs(args, num) && |parts| == |args|
    requires forall i :: 0 <= i < |args| ==> Trim(parts[i]) == Trim(ArgText(args[i], ""))
    ensures PairsFrom(parts, num, acc) == Some(ArgsValue(args, num, acc))
  {
    if args != [] {
      assert GoodArg(args[0], num);
      ArgTrims(args[0], num);
      PairReads(args[0], num);
      assert Trim(parts[0]) == Trim(ArgText(args[0], ""));
      PairsRead(parts[1..], args[1..], num, acc[args[0].key := ValueOf(args[0].val, num)]);
    }
  }

  lemma {:induction false} TrimStartIgnores(pre: string, s: string)
    requires AllSpace(pre)
    ensures TrimStart(pre + s) == TrimStart(s)
  {
    if pre == "" {
      assert pre + s == s;
    } else {
      assert IsSpace(pre[0]);
      assert (pre + s)[1..] == pre[1..] + s;
      TrimStartIgnores(pre[1..], s);
    }
  }

  lemma NoKwargs(gap: string, num: Decoder)
    requires AllSpace(gap)
    ensures ParseKwargs(gap + ArgsText([], ""), num) == Some(Obj(ArgsValue([], num, map[])))
  {
    PlainJoins(gap, "", ',', "");
    assert "" + gap == gap && gap + "" == gap;
    var parts := SplitTop(gap, ',');
    assert parts == [gap];
    TrimCore(gap, "", "");
    assert gap + "" + "" == gap;
    assert PairsFrom(parts[1..], num, map[]) == Some(map[]);
  }

  lemma KwargsRead(gap: string, args: seq<Arg>, num: Decoder)
    requires GoodArgs(args, num) && AllSpace(gap)
    ensures ParseKwargs(gap + ArgsText(args, ""), num) == Some(Obj(ArgsValue(args, num, map[])))
  {
    hide *;
    if args == [] {
      NoKwargs(gap, num);
    } else {
      var inner := gap + ArgsText(args, "");
      KwargsSplit(gap, args, num);
      PairsRead(SplitTop(inner, ','), args, num, map[]);
      KwargsSteps(inner, ArgsValue(args, num, map[]), num);
    }
  }

  lemma KwargsSteps(inner: string, obj: map<string, Value>, num: Decoder)
    requires PairsFrom(SplitTop(inner, ','), num, map[]) == Some(obj)
    ensures ParseKwargs(inner, num) == Some(Obj(obj))
  {
    hide PairsFrom, SplitTop;
  }

  lemma KwargsSplit(gap: string, args: seq<Arg>, num: Decoder)
    requires GoodArgs(args, num) && AllSpace(gap) && args != []
    ensures var parts := SplitTop(gap + ArgsText(args, ""), ',');
            |parts| == |args| && forall i :: 0 <= i < |args| ==> Trim(parts[i]) == Trim(ArgText(args[i], ""))
  {
    hide SplitFrom, ArgsText, GoodArg, ArgText, AllSpace, TrimStart;
    PlainGap(gap);
    PlainJoins(gap, ArgsText(args, ""), ',', "");
    assert "" + gap == gap;
    ArgsSplitTop(args, gap, num);
    TrimStartIgnores(gap, ArgText(args[0], ""));
  }

  lemma PlainGap(gap: string)
    requires AllSpace(gap)
    ensures forall i :: 0 <= i < |gap| ==> gap[i] != '"' && gap[i] != ','
  {
  }

  lemma StartChars(s: string, pat: string)
    requires |pat| >= 2 && StartsWith(s, pat)
    ensures |s| >= 2 && s[0] == pat[0] && s[1] == pat[1]
  {
    assert s[0..|pat|][0] == s[0] && s[0..|pat|][1] == s[1];
  }

  lemma {:induction false} FindToolUnique(s: string, tools: seq<ToolName>, t: ToolName)
    requires t in tools && Invokes(s, t) && forall u: ToolName :: u != t ==> !Invokes(s, u)
    ensures FindTool(s, tools) == Some(t)
  {
    if tools[0] != t { FindToolUnique(s, tools[1..], t); }
  }

  /** No two catalog names agree in their first two characters. */
  lemma FindsTool(t: ToolName, rest: string)
    ensures FindTool(t.Ref() + ("(" + rest), ALL_TOOLS) == Some(t)
  {
    var s := t.Ref() + ("(" + rest);
    NameFirst(t, rest);
    forall u: ToolName | u != t ensures !Invokes(s, u) { OtherName(s, t, u); }
    FindToolUnique(s, ALL_TOOLS, t);
  }

  lemma NameFirst(t: ToolName, rest: string)
    ensures var s := t.Ref() + ("(" + rest);
            Invokes(s, t) && |s| >= 2 && s[0] == t.Ref()[0] && s[1] == t.Ref()[1]
  {
    var s := t.Ref() + ("(" + rest);
    assert s[0..|t.Ref()|] == t.Ref();
  }

  lemma OtherName(s: string, t: ToolName, u: ToolName)
    requires u != t && |s| >= 2 && s[0] == t.Ref()[0] && s[1] == t.Ref()[1]
    ensures !Invokes(s, u)
  {
    if StartsWith(s, u.Ref()) { StartChars(s, u.Ref()); }
  }

  lemma InvocationSteps(trimmed: string, t: ToolName, rest: string, inner: string, args: Value, num: Decoder)
    requires FindTool(trimmed, ALL_TOOLS) == Some(t) && rest == trimmed[|t.Ref()| + 1..]
    requires ParenEnd(rest) == Some(|inner|) && inner == rest[..|inner|] && ParseKwargs(inner, num) == Some(args)
    ensures ExtractFunctionCall(trimmed, num) == Some(Obj(map["name" := Str(t.Ref()), "arguments" := args]))
  {
    hide PairsFrom, ParseKwargs, ParenEnd, FindTool, ToolName.Ref;
  }

  /** The parenthesis scanner stops at the one that closes the argument list. */
  lemma ArgsEnd(gap: string, args: seq<Arg>, trailing: string, num: Decoder)
    requires GoodArgs(args, num) && AllSpace(gap)
    ensures var inner := gap + ArgsText(args, "");
            && gap + ArgsText(args, ")" + trailing) == inner + (")" + trailing)
            && ParenEnd(inner + (")" + trailing)) == Some(|inner|)
  {
    var k := ")" + trailing;
    forall i | 0 <= i < |args| ensures Scalar(args[i].val) { assert GoodArg(args[i], num); }
    ArgsSplit(args, k);
    Assoc(gap, ArgsText(args, ""), k);
    GapArgsPast(gap, args, k, num);
    ParenCloses(gap + ArgsText(args, ""), trailing);
  }

  lemma GapArgsPast(gap: string, args: seq<Arg>, k: string, num: Decoder)
    requires GoodArgs(args, num) && AllSpace(gap)
    ensures Past(gap + ArgsText(args, k), k, Scan(1, Outside), PARENS)
  {
    hide Closing;
    QuietPast(gap, ArgsText(args, k), Scan(1, Outside), PARENS);
    ArgsPast(args, k, num);
  }

  lemma ParenCloses(inner: string, trailing: string)
    requires Past(inner + (")" + trailing), ")" + trailing, Scan(1, Outside), PARENS)
    ensures ParenEnd(inner + (")" + trailing)) == Some(|inner|)
  {
  }

  /** An invocation's text, trimmed or not, reads back as the tool and exactly its arguments. */
  lemma FunctionCallReads(t: ToolName, gap: string, args: seq<Arg>, trailing: string, num: Decoder)
    requires GoodArgs(args, num) && AllSpace(gap)
    ensures ExtractFunctionCall(CallText(t, gap, args, trailing), num) ==
            Some(Obj(map["name" := Str(t.Ref()), "arguments" := Obj(ArgsValue(args, num, map[]))]))
  {
    var inner := gap + ArgsText(args, "");
    var rest := inner + (")" + trailing);
    ArgsEnd(gap, args, trailing, num);
    CallTextSteps(CallText(t, gap, args, trailing), t, inner, trailing);
    KwargsRead(gap, args, num);
    InvocationSteps(CallText(t, gap, args, trailing), t, rest, inner, Obj(ArgsValue(args, num, map[])), num);
  }

  lemma CallTextSteps(s: string, t: ToolName, inner: string, trailing: string)
    requires s == t.Ref() + ("(" + (inner + (")" + trailing)))
    ensures var rest := inner + (")" + trailing);
            && FindTool(s, ALL_TOOLS) == Some(t) && |t.Ref()| + 1 <= |s|
            && s[|t.Ref()| + 1..] == rest && rest[..|inner|] == inner
  {
    FindsTool(t, inner + (")" + trailing));
  }

  lemma {:induction false} TrimEndKeeps(a: string, b: string) returns (kept: string)
    requires a != "" && !IsSpace(a[|a| - 1])
    ensures TrimEnd(a + b) == a + kept && kept <= b
  {
    if b == "" {
      assert a + b == a;
      kept := "";
    } else if IsSpace(b[|b| - 1]) {
      assert (a + b)[..|a + b| - 1] == a + b[..|b| - 1];
      kept := TrimEndKeeps(a, b[..|b| - 1]);
    } else {
      kept := b;
    }
  }

  lemma CallTextTrims(t: ToolName, gap: string, args: seq<Arg>, trailing: string) returns (kept: string)
    requires forall i :: 0 <= i < |args| ==> Scalar(args[i].val)
    ensures Trim(CallText(t, gap, args, trailing)) == CallText(t, gap, args, kept)
  {
    var a := t.Ref() + ("(" + (gap + (ArgsText(args, "") + ")")));
    CallTextSplit(t, gap, args, trailing);
    kept := TrimEndKeeps(a, trailing);
    CallTextSplit(t, gap, args, kept);
    assert (a + trailing)[0] == t.Ref()[0];
  }

  lemma CallTextSplit(t: ToolName, gap: string, args: seq<Arg>, trailing: string)
    requires forall i :: 0 <= i < |args| ==> Scalar(args[i].val)
    ensures CallText(t, gap, args, trailing) == t.Ref() + ("(" + (gap + (ArgsText(args, "") + ")"))) + trailing
  {
    ArgsSplit(args, ")" + trailing);
    Regroup4(t.Ref(), gap, ArgsText(args, ""), trailing);
  }

  lemma Regroup4(name: string, gap: string, args: string, k: string)
    ensures name + ("(" + (gap + (args + (")" + k)))) == name + ("(" + (gap + (args + ")"))) + k
  {
  }

  lemma CallTextStart(t: ToolName, gap: string, args: seq<Arg>, trailing: string)
    ensures var s := CallText(t, gap, args, trailing); s != "" && s[0] != '{'
  {
  }

  lemma ClassifyCall(name: string, args: Value, raw: string)
    requires name != ""
    ensures Classify(Obj(map["name" := Str(name), "arguments" := args]), raw) == Call(name, args)
  {
  }

  lemma UnwrappedCall(text: string, trimmed: string, v: Value, num: Decoder)
    requires Find(text, OPEN_TAG).None? && Trim(text) == trimmed
    requires trimmed != "" && trimmed[0] != '{' && ExtractFunctionCall(trimmed, num) == Some(v)
    ensures ParseGeneration(text, num) == Classify(v, text)
  {
  }

  /** The function-call round trip: a catalog name with printed arguments, followed by any text,
      is that tool's call with exactly those arguments. */
  lemma FunctionCallRoundTrip(t: ToolName, gap: string, args: seq<Arg>, trailing: string, num: Decoder)
    requires GoodArgs(args, num) && AllSpace(gap)
    requires !Contains(CallText(t, gap, args, trailing), OPEN_TAG)
    ensures ParseGeneration(CallText(t, gap, args, trailing), num) ==
            Call(t.Ref(), Obj(ArgsValue(args, num, map[])))
  {
    var s := CallText(t, gap, args, trailing);
    forall i | 0 <= i < |args| ensures Scalar(args[i].val) { assert GoodArg(args[i], num); }
    var kept := CallTextTrims(t, gap, args, trailing);
    var trimmed := CallText(t, gap, args, kept);
    CallTextStart(t, gap, args, kept);
    FunctionCallReads(t, gap, args, kept, num);
    FindIsFirst(s, OPEN_TAG);
    var obj := Obj(ArgsValue(args, num, map[]));
    UnwrappedCall(s, trimmed, Obj(map["name" := Str(t.Ref()), "arguments" := obj]), num);
    ClassifyCall(t.Ref(), obj, s);
  }

  predicate DistinctKeys(args: seq<Arg>) {
    forall i, j :: 0 <= i < j < |args| ==> args[i].key != args[j].key
  }

  lemma {:induction false} ArgsValueElsewhere(args: seq<Arg>, num: Decoder, acc: map<string, Value>, key: string)
    requires GoodArgs(args, num) && forall i :: 0 <= i < |args| ==> args[i].key != key
    ensures var m := ArgsValue(args, num, acc);
            (key in m <==> key in acc) && (key in acc ==> m[key] == acc[key])
  {
    if args != [] {
      assert GoodArg(args[0], num) && args[0].key != key;
      ArgsValueElsewhere(args[1..], num, acc[args[0].key := ValueOf(args[0].val, num)], key);
    }
  }

  lemma {:induction false} ArgsValueAt(args: seq<Arg>, num: Decoder, acc: map<string, Value>, i: nat)
    requires GoodArgs(args, num) && DistinctKeys(args) && i < |args|
    ensures GoodArg(args[i], num)
    ensures var m := ArgsValue(args, num, acc); args[i].key in m && m[args[i].key] == ValueOf(args[i].val, num)
  {
    assert GoodArg(args[0], num);
    var acc2 := acc[args[0].key := ValueOf(args[0].val, num)];
    if i == 0 {
      ArgsValueElsewhere(args[1..], num, acc2, args[0].key);
    } else {
      ArgsValueAt(args[1..], num, acc2, i - 1);
    }
  }

  /** With distinct keys the arguments read back are the printed ones, no more and no fewer. */
  lemma ArgsValueExact(args: seq<Arg>, num: Decoder, key: string, v: Value)
    requires GoodArgs(args, num) && DistinctKeys(args)
    ensures var m := ArgsValue(args, num, map[]);
            key in m && m[key] == v <==>
            exists i :: 0 <= i < |args| && args[i].key == key && GoodArg(args[i], num) && ValueOf(args[i].val, num) == v
  {
    if i :| 0 <= i < |args| && args[i].key == key {
      ArgsValueAt(args, num, map[], i);
    } else {
      ArgsValueElsewhere(args, num, map[], key);
    }
  }

  // --------------------------------------------------------------- bare objects

  /** More text after a balanced object does not move its end. */
  lemma ObjectEndStable(s: string, t: string)
    requires s <= t && ObjectEnd(s).Some?
    ensures ObjectEnd(t) == ObjectEnd(s)
  {
    var e := ObjectEnd(s).value;
    ObjectEndIsShortest(s, e);
    assert forall j :: 0 <= j <= e ==> s[..j] == t[..j];
    ObjectEndIsShortest(t, e);
  }

  lemma TextSplitObject(c: Cst, k: string)
    requires Loose(c) && c.CObj?
    ensures TextOf(c, k) == TextOf(c, "") + k
  {
    TreeSplit(c, "", k);
    assert "" + k == k;
  }

  lemma {:induction false} TreeSplit(c: Cst, j: string, k: string)
    ensures TextOf(c, j + k) == TextOf(c, j) + k
    decreases c, 1
  {
    match c
    case CArr(g, es) =>
      if es.ENil? { EmptySplit("[", g, "]", j, k); } else {
        ElemsSplit(es, j, k);
        assert "[" + (ElemsText(es, j) + k) == "[" + ElemsText(es, j) + k;
      }
    case CObj(g, ms) =>
      if ms.MNil? { EmptySplit("{", g, "}", j, k); } else {
        MembersSplit(ms, j, k);
        assert "{" + (MembersText(ms, j) + k) == "{" + MembersText(ms, j) + k;
      }
    case _ => ScalarSplit(c, j, k);
  }

  lemma EmptySplit(open: string, g: string, close: string, j: string, k: string)
    ensures open + (g + (close + (j + k))) == open + (g + (close + j)) + k
  {
  }

  lemma {:induction false} ElemsSplit(es: Elems, j: string, k: string)
    requires es.ECons?
    ensures ElemsText(es, j + k) == ElemsText(es, j) + k
    decreases es, 2
  {
    hide TextOf;
    if es.tail.ECons? { ElemsSplit(es.tail, j, k); }
    var closer := if es.tail.ENil? then "]" + j else "," + ElemsText(es.tail, j);
    var next := if es.tail.ENil? then "]" + (j + k) else "," + ElemsText(es.tail, j + k);
    assert next == closer + k;
    TreeSplit(es.elem, es.post + closer, k);
    ElemRegroup(es.pre, es.post, closer, k, TextOf(es.elem, es.post + closer));
  }

  lemma ElemRegroup(pre: string, post: string, closer: string, k: string, elem: string)
    ensures post + closer + k == post + (closer + k) && pre + (elem + k) == pre + elem + k
  {
  }

  lemma {:induction false} MembersSplit(ms: Members, j: string, k: string)
    requires ms.MCons?
    ensures MembersText(ms, j + k) == MembersText(ms, j) + k
    decreases ms, 2
  {
    if ms.tail.MCons? { MembersSplit(ms.tail, j, k); }
    var closer := if ms.tail.MNil? then "}" + j else "," + MembersText(ms.tail, j);
    assert (if ms.tail.MNil? then "}" + (j + k) else "," + MembersText(ms.tail, j + k)) == closer + k;
    assert ms.post + (closer + k) == ms.post + closer + k;
    TreeSplit(ms.val, ms.post + closer, k);
    var v := TextOf(ms.val, ms.post + closer);
    var afterKey := ms.mid + (":" + (ms.sep + v));
    assert ms.mid + (":" + (ms.sep + (v + k))) == afterKey + k;
    BodySplit(ms.key, "\"" + (afterKey + k));
    BodySplit(ms.key, "\"" + afterKey);
    var body := BodyText(ms.key, "");
    assert ms.pre + ("\"" + (body + ("\"" + (afterKey + k)))) == ms.pre + ("\"" + (body + ("\"" + afterKey))) + k;
  }

  lemma ObjectEnds(c: Cst)
    requires Loose(c) && c.CObj?
    ensures var s := TextOf(c, ""); s != "" && s[0] == '{' && s[|s| - 1] == '}'
  {
    var s := TextOf(c, "");
    if c.members.MCons? {
      assert s == "{" + MembersText(c.members, "");
      MembersEnd(c.members);
    } else {
      assert s == "{" + (c.gap + ("}" + ""));
    }
  }

  lemma {:induction false} MembersEnd(ms: Members)
    requires ms.MCons?
    ensures var s := MembersText(ms, ""); s != "" && s[|s| - 1] == '}'
    decreases ms
  {
    hide TextOf, BodyText;
    var closer := if ms.tail.MNil? then "}" + "" else "," + MembersText(ms.tail, "");
    if ms.tail.MCons? { MembersEnd(ms.tail); }
    assert closer[|closer| - 1] == '}';
    TreeSplit(ms.val, "", ms.post + closer);
    assert "" + (ms.post + closer) == ms.post + closer;
    var v := TextOf(ms.val, ms.post + closer);
    LastOfSum(TextOf(ms.val, ""), ms.post, closer);
    BodySplit(ms.key, "\"" + (ms.mid + (":" + (ms.sep + v))));
    MemberEnd(ms.pre, BodyText(ms.key, ""), ms.mid, ms.sep, v);
  }

  lemma LastOfSum(a: string, b: string, c: string)
    requires c != ""
    ensures var s := a + (b + c); s != "" && s[|s| - 1] == c[|c| - 1]
  {
  }

  lemma MemberEnd(pre: string, body: string, mid: string, sep: string, v: string)
    requires v != ""
    ensures var s := pre + ("\"" + (body + ("\"" + (mid + (":" + (sep + v)))))); s != "" && s[|s| - 1] == v[|v| - 1]
  {
  }

  /** The bare form: a leading object is read alone and everything after it is discarded. */
  lemma BareObjectReads(c: Cst, trailing: string, num: Decoder)
    requires Loose(c) && c.CObj?
    ensures ExtractBare(TextOf(c, trailing), num) ==
            if Strict(c, num) && Depth(c) <= MAX_DEPTH && CallShape(ValueOf(c, num)) then Some(ValueOf(c, num))
                else None
  {
    ObjectEndOfText(c, trailing);
    TextSplitObject(c, trailing);
    var t := TextOf(c, "");
    assert TextOf(c, trailing)[..|t|] == t;
    FromStrText("", c, "", num);
    assert "" + t == t;
  }

  /** A generation that opens with an object of the call shape is that call, whatever follows. */
  lemma BareCallRoundTrip(pre: string, c: Cst, trailing: string, num: Decoder)
    requires AllSpace(pre) && Loose(c) && c.CObj? && Strict(c, num) && Depth(c) <= MAX_DEPTH
    requires CallShape(ValueOf(c, num)) && !Contains(pre + TextOf(c, trailing), OPEN_TAG)
    ensures ParseGeneration(pre + TextOf(c, trailing), num) ==
            Call(ValueOf(c, num).members["name"].s, ValueOf(c, num).members["arguments"])
  {
    var t := TextOf(c, "");
    TextSplitObject(c, trailing);
    ObjectEnds(c);
    TrimStartIgnores(pre, t + trailing);
    var kept := TrimEndKeeps(t, trailing);
    assert TrimStart(t + trailing) == t + trailing;
    assert Trim(pre + TextOf(c, trailing)) == t + kept;
    TextSplitObject(c, kept);
    BareObjectReads(c, kept, num);
    FindIsFirst(pre + TextOf(c, trailing), OPEN_TAG);
  }

  /** `trimmed` is, in full, one JSON object that is not a tool call. */
  ghost predicate BareNonCallObject(trimmed: string, num: Decoder) {
    exists c: Cst ::
      && Loose(c) && c.CObj? && Strict(c, num) && Depth(c) <= MAX_DEPTH
      && trimmed == TextOf(c, "") && !CallShape(ValueOf(c, num))
  }

  lemma NoLead(ws: string, rest: string)
    requires JsonWs(ws) && ws + rest != "" && !IsJsonWs((ws + rest)[0])
    ensures ws == ""
  {
  }

  /** The text of one conforming JSON object. */
  ghost predicate ObjectText(o: string, num: Decoder) {
    exists c: Cst :: Loose(c) && c.CObj? && Strict(c, num) && Depth(c) <= MAX_DEPTH && o == TextOf(c, "")
  }

  lemma EndInPrefix(s: string, n: nat)
    requires ObjectEnd(s) == Some(n)
    ensures ObjectEnd(s[..n]) == Some(n)
  {
    ObjectEndIsShortest(s, n);
    assert forall j :: 0 <= j <= n ==> s[..n][..j] == s[..j];
    ObjectEndIsShortest(s[..n], n);
  }

  /** The scanner and the parser together recognise exactly a leading conforming object. */
  lemma ObjectIff(s: string, n: nat, num: Decoder)
    requires n <= |s|
    ensures ObjectEnd(s) == Some(n) && FromStr(s[..n], num).Some? <==> ObjectText(s[..n], num)
  {
    hide ObjectText, FromStr, ObjectEnd;
    if ObjectText(s[..n], num) { ObjectFound(s[..n], s[n..], num); }
    if ObjectEnd(s) == Some(n) && FromStr(s[..n], num).Some? {
      EndInPrefix(s, n);
      ObjectAlone(s[..n], num);
    }
    assert s == s[..n] + s[n..];
  }

  lemma ObjectFound(o: string, k: string, num: Decoder)
    requires ObjectText(o, num)
    ensures ObjectEnd(o + k) == Some(|o|) && FromStr(o, num).Some?
  {
    hide FromStr, ObjectEnd, Loose, Strict, Depth, TextOf;
    var c: Cst :| Loose(c) && c.CObj? && Strict(c, num) && Depth(c) <= MAX_DEPTH && o == TextOf(c, "");
    TextSplitObject(c, k);
    ObjectEndOfText(c, k);
    assert JsonWs("") && "" + TextOf(c, "") == o;
    assert IsJsonText(o, num, ValueOf(c, num));
    FromStrIffJson(o, num, ValueOf(c, num));
  }

  lemma ObjectAlone(o: string, num: Decoder)
    requires ObjectEnd(o) == Some(|o|) && FromStr(o, num).Some?
    ensures ObjectText(o, num)
  {
    FromStrIffJson(o, num, FromStr(o, num).value);
    var pre, c, post :|
      && JsonWs(pre) && JsonWs(post) && Loose(c) && Strict(c, num) && Depth(c) <= MAX_DEPTH
      && o == pre + TextOf(c, post) && FromStr(o, num).value == ValueOf(c, num);
    NoLead(pre, TextOf(c, post));
    assert o == TextOf(c, post);
    TextStart(c, post);
    ObjectEndOfText(c, post);
    assert post == "";
  }

  lemma LeakShape(trimmed: string, num: Decoder)
    requires IsLeak(trimmed, num)
    ensures BareNonCallObject(trimmed, num)
  {
    var v := FromStr(trimmed, num).value;
    FromStrIffJson(trimmed, num, v);
    var pre, c, post :|
      && JsonWs(pre) && JsonWs(post) && Loose(c) && Strict(c, num) && Depth(c) <= MAX_DEPTH
      && trimmed == pre + TextOf(c, post) && v == ValueOf(c, num);
    NoLead(pre, TextOf(c, post));
    assert trimmed == TextOf(c, post);
    TextStart(c, post);
    ObjectEndOfText(c, post);
    assert post == "";
    BareObjectReads(c, "", num);
  }

  /** The leak test is exact. */
  lemma LeakIffBareObject(trimmed: string, num: Decoder)
    ensures IsLeak(trimmed, num) <==> BareNonCallObject(trimmed, num)
  {
    if IsLeak(trimmed, num) {
      LeakShape(trimmed, num);
    }
    if BareNonCallObject(trimmed, num) {
      var c :|
        && Loose(c) && c.CObj? && Strict(c, num) && Depth(c) <= MAX_DEPTH
        && trimmed == TextOf(c, "") && !CallShape(ValueOf(c, num));
      ObjectEndOfText(c, "");
      BareObjectReads(c, "", num);
      FromStrText("", c, "", num);
      assert "" + trimmed == trimmed;
    }
  }

  // --------------------------------------------------------------- wrapped form

  /** No proper suffix of the closing tag starts it again, so it is found where it was written. */
  lemma CloseTagFound(content: string, post: string)
    requires !Contains(content, CLOSE_TAG)
    ensures Find(content + (CLOSE_TAG + post), CLOSE_TAG) == Some(|content|)
  {
    var s := content + (CLOSE_TAG + post);
    assert s[|content|..|content| + |CLOSE_TAG|] == CLOSE_TAG;
    assert OccursAt(s, CLOSE_TAG, |content|);
    FindIsFirst(content, CLOSE_TAG);
    forall j: nat | j < |content|
      ensures !OccursAt(s, CLOSE_TAG, j)
    {
      if j + |CLOSE_TAG| <= |content| {
        assert s[j..j + |CLOSE_TAG|] == content[j..j + |CLOSE_TAG|];
        assert !OccursAt(content, CLOSE_TAG, j);
      } else {
        var d := |content| - j;
        assert s[|content|] == '<' && CLOSE_TAG[d] != '<';
        assert j + |CLOSE_TAG| <= |s| ==> s[j..j + |CLOSE_TAG|][d] == s[|content|];
      }
    }
    FoundAt(s, CLOSE_TAG, |content|);
  }

  predicate Wrapped(pre: string, ws1: string, c: Cst, ws2: string) {
    JsonWs(ws1) && Loose(c) && c.CObj? && JsonWs(ws2) && Find(pre + OPEN_TAG, OPEN_TAG) == Some(|pre|)
  }

  /** The wrapped generation `pre<tool_call> ws object ws </tool_call>post`. */
  function WrappedText(pre: string, ws1: string, c: Cst, ws2: string, post: string): string {
    pre + (OPEN_TAG + (ws1 + TextOf(c, ws2) + (CLOSE_TAG + post)))
  }

  lemma OpenTagFound(pre: string, rest: string)
    requires Find(pre + OPEN_TAG, OPEN_TAG) == Some(|pre|)
    ensures Find(pre + (OPEN_TAG + rest), OPEN_TAG) == Some(|pre|)
  {
    var s := pre + (OPEN_TAG + rest);
    FindIsFirst(pre + OPEN_TAG, OPEN_TAG);
    assert s[|pre|..|pre| + |OPEN_TAG|] == OPEN_TAG;
    assert OccursAt(s, OPEN_TAG, |pre|);
    forall j: nat | j < |pre|
      ensures !OccursAt(s, OPEN_TAG, j)
    {
      assert !OccursAt(pre + OPEN_TAG, OPEN_TAG, j);
      assert s[j..j + |OPEN_TAG|] == (pre + OPEN_TAG)[j..j + |OPEN_TAG|];
    }
    FoundAt(s, OPEN_TAG, |pre|);
  }

  lemma WrappedSteps(text: string, open: nat, rest: string, len: nat, num: Decoder)
    requires Find(text, OPEN_TAG) == Some(open) && rest == text[open + |OPEN_TAG|..]
    requires Find(rest, CLOSE_TAG) == Some(len)
    ensures ParseGeneration(text, num) ==
            match FromStr(Trim(rest[..len]), num) case Some(v) => Classify(v, text) case None => Malformed(text)
  {
    hide FromStr, Classify, Trim, Find;
    var start := open + |OPEN_TAG|;
    assert text[start..start + len] == rest[..len];
  }

  /** The text between the tags, up to the first closing tag found at `len`. */
  lemma WrappedReads(pre: string, ws1: string, c: Cst, ws2: string, post: string, len: nat, num: Decoder)
    requires Wrapped(pre, ws1, c, ws2)
    requires Find(ws1 + TextOf(c, ws2) + (CLOSE_TAG + post), CLOSE_TAG) == Some(len)
    ensures ParseGeneration(WrappedText(pre, ws1, c, ws2, post), num) ==
            match FromStr(Trim((ws1 + TextOf(c, ws2) + (CLOSE_TAG + post))[..len]), num)
            case Some(v) => Classify(v, WrappedText(pre, ws1, c, ws2, post))
            case None => Malformed(WrappedText(pre, ws1, c, ws2, post))
  {
    var rest := ws1 + TextOf(c, ws2) + (CLOSE_TAG + post);
    OpenTagFound(pre, rest);
    assert (pre + (OPEN_TAG + rest))[|pre| + |OPEN_TAG|..] == rest;
    WrappedSteps(WrappedText(pre, ws1, c, ws2, post), |pre|, rest, len, num);
  }

  lemma TrimObject(ws1: string, c: Cst, ws2: string)
    requires JsonWs(ws1) && Loose(c) && c.CObj? && JsonWs(ws2)
    ensures Trim(ws1 + TextOf(c, ws2)) == TextOf(c, "")
  {
    TextSplitObject(c, ws2);
    ObjectEnds(c);
    TrimCore(ws1, TextOf(c, ""), ws2);
    assert ws1 + (TextOf(c, "") + ws2) == ws1 + TextOf(c, "") + ws2;
  }

  lemma ObjectTextShape(j: string, num: Decoder) returns (d: Cst, post: string)
    requires j != "" && j[0] == '{' && FromStr(j, num).Some?
    ensures Loose(d) && d.CObj? && j == TextOf(d, post)
  {
    var v := FromStr(j, num).value;
    FromStrIffJson(j, num, v);
    var pre, c, after :|
      && JsonWs(pre) && JsonWs(after) && Loose(c) && Strict(c, num) && Depth(c) <= MAX_DEPTH
      && j == pre + TextOf(c, after) && v == ValueOf(c, num);
    NoLead(pre, TextOf(c, after));
    d, post := c, after;
    assert j == TextOf(d, post);
    TextStart(d, post);
  }

  /** A proper prefix of an object's text is not JSON, even after trimming. */
  lemma CutObjectRejected(ws1: string, c: Cst, n: nat, num: Decoder)
    requires JsonWs(ws1) && Loose(c) && c.CObj? && n < |TextOf(c, "")|
    ensures FromStr(Trim(ws1 + TextOf(c, "")[..n]), num).None?
  {
    ObjectEnds(c);
    var j := CutTrims(ws1, TextOf(c, ""), n);
    if j != "" { PrefixRejected(c, j, num); }
  }

  lemma CutTrims(ws1: string, t: string, n: nat) returns (j: string)
    requires AllSpace(ws1) && n < |t| && t[0] == '{'
    ensures Trim(ws1 + t[..n]) == j && j < t
  {
    TrimStartIgnores(ws1, t[..n]);
    if n == 0 {
      j := "";
    } else {
      var kept := TrimEndKeeps("{", t[1..n]);
      assert "{" + t[1..n] == t[..n];
      j := "{" + kept;
    }
  }

  lemma PrefixRejected(c: Cst, j: string, num: Decoder)
    requires Loose(c) && c.CObj? && j != "" && j < TextOf(c, "")
    ensures FromStr(j, num).None?
  {
    ObjectEndOfText(c, "");
    ObjectEnds(c);
    if FromStr(j, num).Some? {
      var d, post := ObjectTextShape(j, num);
      ObjectEndOfText(d, post);
      ObjectEndStable(j, TextOf(c, ""));
      assert false;
    }
  }

  /** White space has no `<`, so a closing tag inside the content lies inside the object's text. */
  lemma CloseTagInside(ws1: string, t: string, ws2: string, p: nat)
    requires JsonWs(ws1) && JsonWs(ws2) && OccursAt(ws1 + t + ws2, CLOSE_TAG, p)
    ensures |ws1| <= p && p + |CLOSE_TAG| <= |ws1| + |t|
  {
    var s := ws1 + t + ws2;
    var q := p + |CLOSE_TAG| - 1;
    assert s[p] == s[p..p + |CLOSE_TAG|][0] == '<';
    assert s[q] == s[p..p + |CLOSE_TAG|][|CLOSE_TAG| - 1] == '>';
    Assoc(ws1, t, ws2);
    PastLead(ws1, t + ws2, p);
    BeforeTail(ws1 + t, ws2, q);
  }

  lemma PastLead(ws: string, rest: string, p: nat)
    requires JsonWs(ws) && p < |ws + rest| && !IsJsonWs((ws + rest)[p])
    ensures |ws| <= p
  {
  }

  lemma BeforeTail(s: string, ws: string, q: nat)
    requires JsonWs(ws) && q < |s + ws| && !IsJsonWs((s + ws)[q])
    ensures q < |s|
  {
  }

  /** The wrapped form, exactly: the object between the tags is the call if it is strict JSON with
      a usable name and holds no closing tag inside a string; otherwise the text is malformed. */
  lemma WrappedRoundTrip(pre: string, ws1: string, c: Cst, ws2: string, post: string, num: Decoder)
    requires Wrapped(pre, ws1, c, ws2)
    ensures ParseGeneration(WrappedText(pre, ws1, c, ws2, post), num) ==
            if Strict(c, num) && Depth(c) <= MAX_DEPTH && !Contains(TextOf(c, ""), CLOSE_TAG)
            then Classify(ValueOf(c, num), WrappedText(pre, ws1, c, ws2, post))
            else Malformed(WrappedText(pre, ws1, c, ws2, post))
  {
    TextSplitObject(c, ws2);
    Assoc(ws1, TextOf(c, ""), ws2);
    if Contains(TextOf(c, ""), CLOSE_TAG) {
      WrappedCut(pre, ws1, c, ws2, post, num);
    } else {
      WrappedWhole(pre, ws1, c, ws2, post, num);
    }
  }

  lemma WrappedWhole(pre: string, ws1: string, c: Cst, ws2: string, post: string, num: Decoder)
    requires Wrapped(pre, ws1, c, ws2) && !Contains(TextOf(c, ""), CLOSE_TAG)
    requires ws1 + TextOf(c, ws2) == ws1 + TextOf(c, "") + ws2
    ensures ParseGeneration(WrappedText(pre, ws1, c, ws2, post), num) ==
            if Strict(c, num) && Depth(c) <= MAX_DEPTH
            then Classify(ValueOf(c, num), WrappedText(pre, ws1, c, ws2, post))
            else Malformed(WrappedText(pre, ws1, c, ws2, post))
  {
    hide Trim;
    var content := ws1 + TextOf(c, ws2);
    NoTagInContent(ws1, TextOf(c, ""), ws2);
    CloseTagFound(content, post);
    WrappedReads(pre, ws1, c, ws2, post, |content|, num);
    assert (content + (CLOSE_TAG + post))[..|content|] == content;
    TrimObject(ws1, c, ws2);
    FromStrText("", c, "", num);
    assert "" + TextOf(c, "") == TextOf(c, "");
  }

  lemma WrappedCut(pre: string, ws1: string, c: Cst, ws2: string, post: string, num: Decoder)
    requires Wrapped(pre, ws1, c, ws2) && Contains(TextOf(c, ""), CLOSE_TAG)
    requires ws1 + TextOf(c, ws2) == ws1 + TextOf(c, "") + ws2
    ensures ParseGeneration(WrappedText(pre, ws1, c, ws2, post), num) ==
            Malformed(WrappedText(pre, ws1, c, ws2, post))
  {
    hide Trim, FromStr, ParseGeneration, TextOf, Find, WrappedText, Loose, Classify;
    var t := TextOf(c, "");
    var rest := ws1 + TextOf(c, ws2) + (CLOSE_TAG + post);
    InsideTagFound(ws1, t, ws2, post);
    var len := Find(rest, CLOSE_TAG).value;
    WrappedReads(pre, ws1, c, ws2, post, len, num);
    CutInside(ws1, t, ws2 + (CLOSE_TAG + post), len);
    assert ws1 + t + (ws2 + (CLOSE_TAG + post)) == ws1 + t + ws2 + (CLOSE_TAG + post);
    CutObjectRejected(ws1, c, len - |ws1|, num);
  }

  lemma CutInside(ws: string, t: string, rest: string, len: nat)
    requires |ws| <= len <= |ws| + |t|
    ensures (ws + t + rest)[..len] == ws + t[..len - |ws|]
  {
  }

  lemma NoTagInContent(ws1: string, t: string, ws2: string)
    requires JsonWs(ws1) && JsonWs(ws2) && !Contains(t, CLOSE_TAG)
    ensures !Contains(ws1 + t + ws2, CLOSE_TAG)
  {
    var content := ws1 + t + ws2;
    forall p: nat
      ensures !OccursAt(content, CLOSE_TAG, p)
    {
      if OccursAt(content, CLOSE_TAG, p) {
        CloseTagInside(ws1, t, ws2, p);
        assert t[p - |ws1|..p - |ws1| + |CLOSE_TAG|] == content[p..p + |CLOSE_TAG|];
        assert OccursAt(t, CLOSE_TAG, p - |ws1|);
        assert false;
      }
    }
  }

  lemma InsideTagFound(ws1: string, t: string, ws2: string, post: string)
    requires JsonWs(ws1) && JsonWs(ws2) && Contains(t, CLOSE_TAG)
    ensures var r := Find(ws1 + t + ws2 + (CLOSE_TAG + post), CLOSE_TAG);
            r.Some? && |ws1| <= r.value && r.value + |CLOSE_TAG| <= |ws1| + |t|
  {
    var content := ws1 + t + ws2;
    var rest := content + (CLOSE_TAG + post);
    var q: nat :| OccursAt(t, CLOSE_TAG, q);
    assert rest[|ws1| + q..|ws1| + q + |CLOSE_TAG|] == t[q..q + |CLOSE_TAG|];
    assert OccursAt(rest, CLOSE_TAG, |ws1| + q);
    FindIsFirst(rest, CLOSE_TAG);
    var r := Find(rest, CLOSE_TAG).value;
    assert r <= |ws1| + q;
    assert content[r..r + |CLOSE_TAG|] == rest[r..r + |CLOSE_TAG|];
    CloseTagInside(ws1, t, ws2, r);
  }
}
