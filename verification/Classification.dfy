/** What `parse_generation` makes of every text (`inference.rs`), said of the text alone: when it is a call,
    and of what; when it is malformed; and that it is prose otherwise. */
module Classification {
  import opened Text
  import opened Json
  import opened Scanner
  import opened ToolCall

  // ------------------------------------------------------------- argument lists

  /** An argument `key: value`: an identifier and a JSON text on either side of the first colon. */
  ghost predicate PairText(part: string, key: string, v: Value, num: Decoder) {
    exists mid: string, after: string ::
      && part == key + mid + (":" + after) && IsIdent(key) && AllSpace(mid) && IsJsonText(Trim(after), num, v)
  }

  type Pairs = seq<Option<(string, Value)>>

  /** Each part is blank or an argument. */
  ghost predicate Reads(parts: seq<string>, pairs: Pairs, num: Decoder) {
    && |pairs| == |parts|
    && forall i :: 0 <= i < |parts| ==>
         match pairs[i]
         case None => AllSpace(parts[i])
         case Some(p) => PairText(Trim(parts[i]), p.0, p.1, num)
  }

  predicate Named(pairs: Pairs, i: nat, key: string) { i < |pairs| && pairs[i].Some? && pairs[i].value.0 == key }

  /** The argument at `i` gives this value, and no later one has its name. */
  ghost predicate Last(pairs: Pairs, i: nat, key: string, v: Value) {
    i < |pairs| && pairs[i] == Some((key, v)) && forall j: nat :: i < j ==> !Named(pairs, j, key)
  }

  predicate Maps(m: map<string, Value>, key: string, v: Value) { key in m && m[key] == v }

  /** Of several arguments of one name the last counts. */
  ghost predicate LastWins(pairs: Pairs, m: map<string, Value>) {
    forall key: string, v: Value :: Maps(m, key, v) <==> exists i: nat :: Last(pairs, i, key, v)
  }

  /** The text between an invocation's parentheses: arguments between the commas outside quotes. */
  ghost predicate ArgumentsRead(inner: string, m: map<string, Value>, num: Decoder) {
    exists parts: seq<string>, pairs: Pairs ::
      CutsAt(inner, ',', parts) && Reads(parts, pairs, num) && LastWins(pairs, m)
  }

  lemma SplitFirstShape(s: string, before: string, after: string)
    requires SplitFirst(s, ':') == Some((before, after))
    ensures s == before + (":" + after)
  {
    var parts := SplitTop(s, ':');
    Scanner.SplitJoins(s, ':', "", Outside);
    assert "" + s == s;
    assert s == before + ([':'] + Join(parts[1..], [':']));
    assert s[|before| + 1..] == Join(parts[1..], [':']);
  }

  lemma IdentPlain(key: string, mid: string)
    requires IsIdent(key) && AllSpace(mid)
    ensures forall i :: 0 <= i < |key + mid| ==> (key + mid)[i] != '"' && (key + mid)[i] != ':'
  {
  }

  lemma PairIff(part: string, key: string, v: Value, num: Decoder)
    requires part != "" && Trimmed(part)
    ensures ParsePair(part, num) == Some((key, v)) <==> PairText(part, key, v, num)
  {
    hide FromStr, IsJsonText, SplitFirst, AllSpace;
    if ParsePair(part, num) == Some((key, v)) {
      var (before, after) := SplitFirst(part, ':').value;
      SplitFirstShape(part, before, after);
      FromStrIffJson(Trim(after), num, v);
      var mid := KeyFirst(before, part);
      assert part == key + mid + (":" + after);
    }
    if mid: string, after: string :|
      part == key + mid + (":" + after) && IsIdent(key) && AllSpace(mid) && IsJsonText(Trim(after), num, v)
    {
      IdentPlain(key, mid);
      CoreSplits(key + mid, after);
      KeyTrims(key, mid);
      FromStrIffJson(Trim(after), num, v);
    }
  }

  lemma KeyFirst(before: string, part: string) returns (mid: string)
    requires Trimmed(part) && before <= part && Trim(before) != ""
    ensures before == Trim(before) + mid && AllSpace(mid)
  {
    var p: string;
    p, mid := TrimParts(before);
    assert part[0] == before[0];
    assert p + Trim(before) + mid == p + (Trim(before) + mid);
    NoSpaceFirst(p, Trim(before) + mid);
    assert p + Trim(before) == Trim(before);
  }

  lemma NoSpaceFirst(p: string, rest: string)
    requires AllSpace(p) && p + rest != "" && !IsSpace((p + rest)[0])
    ensures p == ""
  {
  }

  // -- the accumulated object

  function Overwrite(acc: map<string, Value>, pairs: Pairs): map<string, Value>
    decreases |pairs|
  {
    if pairs == [] then acc
    else Overwrite(if pairs[0].Some? then acc[pairs[0].value.0 := pairs[0].value.1] else acc, pairs[1..])
  }

  lemma {:induction false} OverwriteIs(acc: map<string, Value>, pairs: Pairs, key: string, v: Value)
    ensures var m := Overwrite(acc, pairs);
            Maps(m, key, v) <==>
            || (exists i: nat :: Last(pairs, i, key, v))
            || ((forall i: nat :: !Named(pairs, i, key)) && Maps(acc, key, v))
    decreases |pairs|
  {
    if pairs != [] {
      var rest := pairs[1..];
      var next := if pairs[0].Some? then acc[pairs[0].value.0 := pairs[0].value.1] else acc;
      OverwriteIs(next, rest, key, v);
      NamedLater(pairs, key);
      LastLater(pairs, key, v);
    }
  }

  lemma NamedLater(pairs: Pairs, key: string)
    requires pairs != []
    ensures forall i: nat :: Named(pairs[1..], i, key) <==> Named(pairs, i + 1, key)
    ensures (forall i: nat :: !Named(pairs, i, key)) <==>
            !Named(pairs, 0, key) && forall i: nat :: !Named(pairs[1..], i, key)
  {
    var rest := pairs[1..];
    assert forall i: nat :: i < |rest| ==> rest[i] == pairs[i + 1];
    forall i: nat | 0 < i && Named(pairs, i, key) ensures Named(rest, i - 1, key) {}
  }

  lemma LastLater(pairs: Pairs, key: string, v: Value)
    requires pairs != []
    ensures (exists i: nat :: Last(pairs, i, key, v)) <==>
            || (exists i: nat :: Last(pairs[1..], i, key, v))
            || (pairs[0] == Some((key, v)) && forall i: nat :: !Named(pairs[1..], i, key))
  {
    var rest := pairs[1..];
    NamedLater(pairs, key);
    forall i: nat ensures Last(rest, i, key, v) <==> Last(pairs, i + 1, key, v) { LastShifts(pairs, i, key, v); }
    if i: nat :| Last(pairs, i, key, v) {
      if i > 0 { assert Last(rest, i - 1, key, v) <==> Last(pairs, i - 1 + 1, key, v); }
    }
    if pairs[0] == Some((key, v)) && forall i: nat :: !Named(rest, i, key) {
      forall j: nat | 0 < j ensures !Named(pairs, j, key) { assert Named(rest, j - 1, key) <==> Named(pairs, j, key); }
      assert Last(pairs, 0, key, v);
    }
  }

  lemma LastShifts(pairs: Pairs, i: nat, key: string, v: Value)
    requires pairs != []
    ensures Last(pairs[1..], i, key, v) <==> Last(pairs, i + 1, key, v)
  {
    var rest := pairs[1..];
    NamedLater(pairs, key);
    if Last(rest, i, key, v) {
      forall j: nat | i + 1 < j ensures !Named(pairs, j, key) { assert Named(rest, j - 1, key)
          <==> Named(pairs, j, key); }
    }
  }

  lemma LastWinsIff(pairs: Pairs, m: map<string, Value>)
    ensures LastWins(pairs, m) <==> m == Overwrite(map[], pairs)
  {
    var o := Overwrite(map[], pairs);
    forall key: string, v: Value ensures Maps(o, key, v) <==> exists i: nat :: Last(pairs, i, key, v) {
      OverwriteIs(map[], pairs, key, v);
    }
    assert LastWins(pairs, o);
    if LastWins(pairs, m) {
      forall key: string, v: Value ensures Maps(m, key, v) <==> Maps(o, key, v) {}
      forall key ensures (key in m <==> key in o) && (key in m && key in o ==> m[key] == o[key]) {
        if key in m { assert Maps(m, key, m[key]); }
        if key in o { assert Maps(o, key, o[key]); }
      }
    }
  }

  lemma {:induction false} PairsFromIff(parts: seq<string>, num: Decoder, acc: map<string, Value>, m: map<string,
      Value>)
    ensures PairsFrom(parts, num, acc) == Some(m) <==>
            exists pairs: Pairs :: Reads(parts, pairs, num) && Overwrite(acc, pairs) == m
    decreases |parts|
  {
    hide PairText, ParsePair, AllSpace;
    if parts == [] {
      assert Reads(parts, [], num);
    } else {
      var part, rest := Trim(parts[0]), parts[1..];
      BlankIff(parts[0]);
      TrimmedIsTrimmed(parts[0]);
      if PairsFrom(parts, num, acc) == Some(m) {
        var head, next := HeadPair(parts, num, acc, m);
        PairsFromIff(rest, num, next, m);
        var tail: Pairs :| Reads(rest, tail, num) && Overwrite(next, tail) == m;
        PairsCons(parts, head, tail, num, acc);
      }
      if pairs: Pairs :| Reads(parts, pairs, num) && Overwrite(acc, pairs) == m {
        var head := pairs[0];
        var next := if head.Some? then acc[head.value.0 := head.value.1] else acc;
        ReadsTail(parts, pairs, num);
        PairsFromIff(rest, num, next, m);
        HeadReads(parts[0], head, num);
      }
    }
  }

  lemma HeadPair(parts: seq<string>, num: Decoder, acc: map<string, Value>, m: map<string, Value>)
    returns (head: Option<(string, Value)>, next: map<string, Value>)
    requires parts != [] && PairsFrom(parts, num, acc) == Some(m)
    ensures PairsFrom(parts[1..], num, next) == Some(m)
    ensures next == if head.Some? then acc[head.value.0 := head.value.1] else acc
    ensures match head case None => AllSpace(parts[0]) case Some(p) => PairText(Trim(parts[0]), p.0, p.1, num)
  {
    hide PairText, ParsePair, AllSpace, Trim;
    var part := Trim(parts[0]);
    BlankIff(parts[0]);
    TrimmedIsTrimmed(parts[0]);
    if part == "" {
      head, next := None, acc;
    } else {
      head := ParsePair(part, num);
      next := acc[head.value.0 := head.value.1];
      PairIff(part, head.value.0, head.value.1, num);
    }
  }

  lemma HeadReads(part: string, head: Option<(string, Value)>, num: Decoder)
    requires match head case None => AllSpace(part) case Some(p) => PairText(Trim(part), p.0, p.1, num)
    ensures head.None? <==> Trim(part) == ""
    ensures head.Some? ==> ParsePair(Trim(part), num) == head
  {
    hide ParsePair, Trim;
    BlankIff(part);
    TrimmedIsTrimmed(part);
    if head.Some? { PairIff(Trim(part), head.value.0, head.value.1, num); }
  }

  lemma PairsCons(parts: seq<string>, head: Option<(string, Value)>, tail: Pairs, num: Decoder, acc: map<string, Value>)
    requires parts != [] && Reads(parts[1..], tail, num)
    requires match head case None => AllSpace(parts[0]) case Some(p) => PairText(Trim(parts[0]), p.0, p.1, num)
    ensures Reads(parts, [head] + tail, num)
    ensures Overwrite(acc, [head] + tail) ==
            Overwrite(if head.Some? then acc[head.value.0 := head.value.1] else acc, tail)
  {
    hide PairText, AllSpace, Trim;
    var pairs := [head] + tail;
    assert pairs[1..] == tail;
    forall i | 0 < i < |parts|
      ensures match pairs[i] case None => AllSpace(parts[i]) case Some(p) => PairText(Trim(parts[i]), p.0, p.1, num)
    {
      assert pairs[i] == tail[i - 1] && parts[i] == parts[1..][i - 1];
    }
  }

  lemma ReadsTail(parts: seq<string>, pairs: Pairs, num: Decoder)
    requires parts != [] && Reads(parts, pairs, num)
    ensures Reads(parts[1..], pairs[1..], num)
  {
    hide PairText, AllSpace, Trim;
  }

  /** The argument list is read as exactly what its parts say. */
  lemma KwargsIff(inner: string, m: map<string, Value>, num: Decoder)
    ensures ParseKwargs(inner, num) == Some(Obj(m)) <==> ArgumentsRead(inner, m, num)
  {
    hide PairsFrom, CutsAt, Reads, LastWins, Overwrite;
    var parts := SplitTop(inner, ',');
    SplitTopExact(inner, ',', parts);
    PairsFromIff(parts, num, map[], m);
    if ParseKwargs(inner, num) == Some(Obj(m)) {
      var pairs: Pairs :| Reads(parts, pairs, num) && Overwrite(map[], pairs) == m;
      LastWinsIff(pairs, m);
    }
    if ps: seq<string>, pairs: Pairs :| CutsAt(inner, ',', ps) && Reads(ps, pairs, num) && LastWins(pairs, m) {
      SplitTopExact(inner, ',', ps);
      LastWinsIff(pairs, m);
    }
  }

  // ------------------------------------------------------------ the three openings

  /** The text opens with a catalog name and a parenthesized argument list that reads. */
  ghost predicate OpensInvocation(s: string, name: string, args: Value, num: Decoder) {
    exists t: ToolName, inner: string, rest: string, m: map<string, Value> :: Invocation(s, t, inner, rest, m, num)
      && name == t.Ref() && args == Obj(m)
  }

  ghost predicate Invocation(s: string, t: ToolName, inner: string, rest: string, m: map<string, Value>, num: Decoder) {
    && s == t.Ref() + ("(" + (inner + (")" + rest)))
    && ShortestClosed(Scan(1, Outside), inner + (")" + rest), PARENS, |inner| + 1)
    && ArgumentsRead(inner, m, num)
  }

  lemma ParenEndIff(inner: string, rest: string)
    ensures ParenEnd(inner + (")" + rest)) == Some(|inner|)
            <==> ShortestClosed(Scan(1, Outside), inner + (")" + rest), PARENS, |inner| + 1)
  {
    hide Closing;
    ClosingIsShortest(inner + (")" + rest), Scan(1, Outside), PARENS, |inner| + 1);
  }

  lemma ParenEndShape(rest: string, n: nat)
    requires ParenEnd(rest) == Some(n)
    ensures n < |rest| && rest == rest[..n] + (")" + rest[n + 1..])
  {
    ClosingEnds(rest, Scan(1, Outside), PARENS);
    assert rest[n] == ')';
  }

  lemma InvokesShape(s: string, t: ToolName)
    requires Invokes(s, t)
    ensures s == t.Ref() + ("(" + s[|t.Ref()| + 1..])
  {
    var n := |t.Ref()|;
    assert s == s[..n] + ([s[n]] + s[n + 1..]);
    assert s[0..n] == s[..n];
  }

  lemma InvocationFound(s: string, num: Decoder)
      returns (t: ToolName, inner: string, rest: string, m: map<string, Value>)
    requires ExtractFunctionCall(s, num).Some?
    ensures Invocation(s, t, inner, rest, m, num)
    ensures ExtractFunctionCall(s, num) == Some(Obj(map["name" := Str(t.Ref()), "arguments" := Obj(m)]))
  {
    hide ToolName.Ref, FindTool, Invokes, ParenEnd, ParseKwargs, ArgumentsRead, ShortestClosed;
    t := FindTool(s, ALL_TOOLS).value;
    InvokesShape(s, t);
    var tail := s[|t.Ref()| + 1..];
    var n := ParenEnd(tail).value;
    ParenEndShape(tail, n);
    inner, rest := tail[..n], tail[n + 1..];
    m := KwargsObject(inner, num);
    ParenEndIff(inner, rest);
    KwargsIff(inner, m, num);
  }

  lemma KwargsObject(inner: string, num: Decoder) returns (m: map<string, Value>)
    requires ParseKwargs(inner, num).Some?
    ensures ParseKwargs(inner, num) == Some(Obj(m))
  {
    m := PairsFrom(SplitTop(inner, ','), num, map[]).value;
  }

  lemma InvocationRead(
    s: string, t: ToolName, inner: string, rest: string, m: map<string, Value>, num: Decoder)
    requires Invocation(s, t, inner, rest, m, num)
    ensures ExtractFunctionCall(s, num) == Some(Obj(map["name" := Str(t.Ref()), "arguments" := Obj(m)]))
  {
    hide ParenEnd, ParseKwargs, ArgumentsRead, ShortestClosed;
    CallTextSteps(s, t, inner, rest);
    ParenEndIff(inner, rest);
    KwargsIff(inner, m, num);
    InvocationSteps(s, t, inner + (")" + rest), inner, Obj(m), num);
  }

  /** The text opens with a conforming object that has a non-empty string `name` and `arguments`. */
  ghost predicate OpensCall(s: string, name: string, args: Value, num: Decoder) {
    exists c: Cst, rest: string :: Loose(c) && c.CObj? && Strict(c, num) && Depth(c) <= MAX_DEPTH
      && s == TextOf(c, "") + rest && name != ""
      && ValueOf(c, num).Get("name") == Some(Str(name)) && ValueOf(c, num).Get("arguments") == Some(args)
  }

  lemma BareFound(s: string, num: Decoder, name: string, args: Value)
    requires ExtractBare(s, num).Some? && name != ""
    requires ExtractBare(s, num).value.Get("name") == Some(Str(name))
    requires ExtractBare(s, num).value.Get("arguments") == Some(args)
    ensures OpensCall(s, name, args, num)
  {
    hide ObjectEnd, FromStr, Loose, Strict, Depth, TextOf;
    var n := ObjectEnd(s).value;
    ObjectIff(s, n, num);
    var c: Cst :| Loose(c) && c.CObj? && Strict(c, num) && Depth(c) <= MAX_DEPTH && s[..n] == TextOf(c, "");
    assert JsonWs("") && "" + TextOf(c, "") == TextOf(c, "");
    assert IsJsonText(s[..n], num, ValueOf(c, num));
    FromStrIffJson(s[..n], num, ValueOf(c, num));
    assert s == TextOf(c, "") + s[n..];
  }

  lemma BareRead(s: string, num: Decoder, name: string, args: Value)
    requires OpensCall(s, name, args, num)
    ensures ExtractBare(s, num).Some?
    ensures ExtractBare(s, num).value.Get("name") == Some(Str(name))
    ensures ExtractBare(s, num).value.Get("arguments") == Some(args)
  {
    hide ObjectEnd, FromStr, Loose, Strict, Depth, TextOf;
    var c: Cst, rest: string :| Loose(c) && c.CObj? && Strict(c, num) && Depth(c) <= MAX_DEPTH
      && s == TextOf(c, "") + rest && name != ""
      && ValueOf(c, num).Get("name") == Some(Str(name)) && ValueOf(c, num).Get("arguments") == Some(args);
    TextSplitObject(c, rest);
    BareObjectReads(c, rest, num);
  }

  // ----------------------------------------------------------- without the tag

  lemma BareAnswer(text: string, num: Decoder)
    requires Find(text, OPEN_TAG).None? && ExtractBare(Trim(text), num).Some?
    ensures exists name: string, args: Value ::
              ParseGeneration(text, num) == Call(name, args) && OpensCall(Trim(text), name, args, num)
  {
    var v := ExtractBare(Trim(text), num).value;
    var name, args := v.Get("name").value.s, v.Get("arguments").value;
    hide ExtractBare, Trim, OpensCall;
    BareFound(Trim(text), num, name, args);
  }

  lemma InvocationAnswer(text: string, num: Decoder)
    requires Find(text, OPEN_TAG).None? && ExtractBare(Trim(text), num).None?
    requires ExtractFunctionCall(Trim(text), num).Some?
    ensures exists name: string, args: Value ::
              ParseGeneration(text, num) == Call(name, args) && OpensInvocation(Trim(text), name, args, num)
  {
    hide ExtractBare, Trim, ExtractFunctionCall, Invocation;
    var t, inner, rest, m := InvocationFound(Trim(text), num);
    RefNotBlank(t);
    ClassifyCall(t.Ref(), Obj(m), text);
    assert OpensInvocation(Trim(text), t.Ref(), Obj(m), num);
  }

  lemma RefNotBlank(t: ToolName)
    ensures t.Ref() != "" && t.Ref()[0] != '{'
  {
  }

  /** Neither form of call opens the text. */
  ghost predicate OpensNothing(s: string, num: Decoder) {
    forall name: string, args: Value :: !OpensCall(s, name, args, num) && !OpensInvocation(s, name, args, num)
  }

  lemma NothingOpens(s: string, num: Decoder)
    ensures OpensNothing(s, num) <==> ExtractBare(s, num).None? && ExtractFunctionCall(s, num).None?
  {
    hide ExtractFunctionCall, Invocation, OpensCall;
    if ExtractBare(s, num).Some? {
      var v := ExtractBare(s, num).value;
      BareFound(s, num, v.Get("name").value.s, v.Get("arguments").value);
    }
    if ExtractFunctionCall(s, num).Some? {
      var t, inner, rest, m := InvocationFound(s, num);
      assert OpensInvocation(s, t.Ref(), Obj(m), num);
    }
    forall name: string, args: Value ensures OpensCall(s, name, args, num) ==> ExtractBare(s, num).Some? {
      if OpensCall(s, name, args, num) { BareRead(s, num, name, args); }
    }
    forall name: string, args: Value ensures OpensInvocation(s, name, args, num) ==> ExtractFunctionCall(s, num).Some? {
      if t: ToolName, inner: string, rest: string, m: map<string, Value> :|
        Invocation(s, t, inner, rest, m, num) && name == t.Ref() && args == Obj(m)
      {
        InvocationRead(s, t, inner, rest, m, num);
      }
    }
  }

  lemma CallAnswer(text: string, num: Decoder, name: string, args: Value)
    requires Find(text, OPEN_TAG).None? && OpensCall(Trim(text), name, args, num)
    ensures ParseGeneration(text, num) == Call(name, args)
  {
    NameGiven(Trim(text), num, name, args);
    hide ExtractBare, Trim, OpensCall;
    BareRead(Trim(text), num, name, args);
  }

  lemma NameGiven(s: string, num: Decoder, name: string, args: Value)
    requires OpensCall(s, name, args, num)
    ensures name != ""
  {
  }

  lemma InvocationCall(text: string, num: Decoder, name: string, args: Value)
    requires Find(text, OPEN_TAG).None? && OpensInvocation(Trim(text), name, args, num)
    ensures ParseGeneration(text, num) == Call(name, args)
  {
    hide Trim, Invocation, ExtractFunctionCall;
    var s := Trim(text);
    var t: ToolName, inner: string, rest: string, m: map<string, Value> :|
      Invocation(s, t, inner, rest, m, num) && name == t.Ref() && args == Obj(m);
    InvocationRead(s, t, inner, rest, m, num);
    InvocationStart(s, t, inner, rest, m, num);
    RefNotBlank(t);
    ClassifyCall(t.Ref(), Obj(m), text);
  }

  lemma InvocationStart(s: string, t: ToolName, inner: string, rest: string, m: map<string, Value>, num: Decoder)
    requires Invocation(s, t, inner, rest, m, num)
    ensures s != "" && s[0] != '{' && ExtractBare(s, num).None?
  {
    RefNotBlank(t);
    assert s[0] == t.Ref()[0];
  }

  lemma NonCallOpensNothing(s: string, num: Decoder)
    ensures BareNonCallObject(s, num) ==> OpensNothing(s, num)
  {
    LeakIffBareObject(s, num);
    NothingOpens(s, num);
    hide BareNonCallObject, OpensNothing, FromStr, ParseKwargs, ParenEnd;
    if BareNonCallObject(s, num) && ExtractFunctionCall(s, num).Some? {
      var t := FindTool(s, ALL_TOOLS).value;
      InvokesShape(s, t);
      RefNotBlank(t);
    }
  }

  /** A text without the opening tag is a call exactly when, trimmed, it opens with a call-shaped object or
      a catalog invocation; it is malformed exactly when, trimmed, it is one conforming object that is no
      call; and any other is prose, trimmed. */
  lemma UnwrappedExact(text: string, num: Decoder)
    requires !Contains(text, OPEN_TAG)
    ensures var s, r := Trim(text), ParseGeneration(text, num);
            && (forall name, args :: r == Call(name, args) <==>
                  OpensCall(s, name, args, num) || OpensInvocation(s, name, args, num))
            && (r == Malformed(text) <==> BareNonCallObject(s, num))
            && (r == Prose(s) <==> OpensNothing(s, num) && !BareNonCallObject(s, num))
  {
    hide ExtractBare, ExtractFunctionCall, OpensCall, OpensInvocation, Trim, IsLeak, BareNonCallObject,
      OpensNothing;
    FindIsFirst(text, OPEN_TAG);
    var s := Trim(text);
    LeakIffBareObject(s, num);
    NothingOpens(s, num);
    NonCallOpensNothing(s, num);
    forall name: string, args: Value
      ensures OpensCall(s, name, args, num) || OpensInvocation(s, name, args, num) ==>
                ParseGeneration(text, num) == Call(name, args)
    {
      if OpensCall(s, name, args, num) { CallAnswer(text, num, name, args); }
      if OpensInvocation(s, name, args, num) { InvocationCall(text, num, name, args); }
    }
    if ExtractBare(s, num).Some? {
      BareAnswer(text, num);
    } else if ExtractFunctionCall(s, num).Some? {
      InvocationAnswer(text, num);
    }
  }

  // -------------------------------------------------------------- with the tag

  /** `content` stands between the first opening tag and the first closing tag after it. */
  ghost predicate Tagged(text: string, pre: string, content: string, post: string) {
    && text == pre + (OPEN_TAG + (content + (CLOSE_TAG + post)))
    && (forall j: nat :: j < |pre| ==> !OccursAt(text, OPEN_TAG, j))
    && (forall j: nat :: j < |content| ==> !OccursAt(content + (CLOSE_TAG + post), CLOSE_TAG, j))
  }

  /** A value with a non-empty string `name`; missing arguments are none. */
  predicate NamesCall(v: Value, name: string, args: Value) {
    && name != "" && v.Get("name") == Some(Str(name))
    && args == match v.Get("arguments") case Some(a) => a case None => Obj(map[])
  }

  ghost predicate WrapsCall(text: string, name: string, args: Value, num: Decoder) {
    exists pre: string, content: string, post: string, v: Value ::
      Tagged(text, pre, content, post) && IsJsonText(Trim(content), num, v) && NamesCall(v, name, args)
  }

  lemma TaggedFinds(text: string, pre: string, content: string, post: string)
    requires Tagged(text, pre, content, post)
    ensures Find(text, OPEN_TAG) == Some(|pre|)
    ensures var rest := content + (CLOSE_TAG + post);
            text[|pre| + |OPEN_TAG|..] == rest && Find(rest, CLOSE_TAG) == Some(|content|)
  {
    hide Find;
    var rest := content + (CLOSE_TAG + post);
    assert text[|pre|..|pre| + |OPEN_TAG|] == OPEN_TAG;
    FoundAt(text, OPEN_TAG, |pre|);
    assert rest[|content|..|content| + |CLOSE_TAG|] == CLOSE_TAG;
    FoundAt(rest, CLOSE_TAG, |content|);
  }

  lemma TaggedFound(text: string, num: Decoder) returns (pre: string, content: string, post: string)
    requires ExtractToolCall(text, num).Some?
    ensures Tagged(text, pre, content, post)
  {
    hide Find, FromStr, Trim, Contains, OccursAt;
    var open := Find(text, OPEN_TAG).value;
    FindIsFirst(text, OPEN_TAG);
    CutAt(text, OPEN_TAG, open);
    var rest := text[open + |OPEN_TAG|..];
    var len := Find(rest, CLOSE_TAG).value;
    FindIsFirst(rest, CLOSE_TAG);
    CutAt(rest, CLOSE_TAG, len);
    pre, content, post := text[..open], rest[..len], rest[len + |CLOSE_TAG|..];
  }

  lemma CutAt(s: string, word: string, at: nat)
    requires OccursAt(s, word, at)
    ensures at + |word| <= |s| && s == s[..at] + (word + s[at + |word|..])
  {
  }

  lemma WrappedAnswer(text: string, pre: string, content: string, post: string, num: Decoder)
    requires Tagged(text, pre, content, post)
    ensures ParseGeneration(text, num) ==
            match FromStr(Trim(content), num) case Some(v) => Classify(v, text) case None => Malformed(text)
  {
    hide Find, FromStr, Tagged, Trim, Classify;
    TaggedFinds(text, pre, content, post);
    var rest := content + (CLOSE_TAG + post);
    WrappedSteps(text, |pre|, rest, |content|, num);
    assert rest[..|content|] == content;
  }

  lemma ClassifyIff(v: Value, raw: string, name: string, args: Value)
    ensures Classify(v, raw) == Call(name, args) <==> NamesCall(v, name, args)
    ensures !Classify(v, raw).Call? ==> Classify(v, raw) == Malformed(raw)
  {
  }

  /** A text with the opening tag is a call exactly when the text between that tag and the next closing one
      is JSON that names it, and malformed otherwise. */
  lemma WrappedExact(text: string, num: Decoder)
    requires Contains(text, OPEN_TAG)
    ensures var r := ParseGeneration(text, num);
            && (forall name, args :: r == Call(name, args) <==> WrapsCall(text, name, args, num))
            && (r == Malformed(text) <==> forall name, args :: !WrapsCall(text, name, args, num))
  {
    hide WrapsCall;
    forall name: string, args: Value
      ensures ParseGeneration(text, num) == Call(name, args) <==> WrapsCall(text, name, args, num)
    {
      WrappedCallIff(text, name, args, num);
    }
    NeverProse(text, num);
  }

  lemma NeverProse(text: string, num: Decoder)
    requires Contains(text, OPEN_TAG)
    ensures ParseGeneration(text, num).Call? || ParseGeneration(text, num) == Malformed(text)
  {
    hide ExtractToolCall;
    FindIsFirst(text, OPEN_TAG);
  }

  lemma WrappedCallIff(text: string, name: string, args: Value, num: Decoder)
    requires Contains(text, OPEN_TAG)
    ensures ParseGeneration(text, num) == Call(name, args) <==> WrapsCall(text, name, args, num)
  {
    hide FromStr, Tagged, Trim, Classify, NamesCall, IsJsonText;
    FindIsFirst(text, OPEN_TAG);
    if ParseGeneration(text, num) == Call(name, args) {
      var pre, content, post := TaggedFound(text, num);
      WrappedAnswer(text, pre, content, post, num);
      var v := FromStr(Trim(content), num).value;
      FromStrIffJson(Trim(content), num, v);
      ClassifyIff(v, text, name, args);
    }
    if pre: string, content: string, post: string, v: Value :|
      Tagged(text, pre, content, post) && IsJsonText(Trim(content), num, v) && NamesCall(v, name, args)
    {
      WrappedAnswer(text, pre, content, post, num);
      FromStrIffJson(Trim(content), num, v);
      ClassifyIff(v, text, name, args);
    }
  }
}
