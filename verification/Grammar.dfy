/** The decoding grammar of `grammar.rs` (`root ::= tool-call | prose`) as a language, and its
    agreement with the parser that reads the model's output back. */
module Grammar {
  import opened Text
  import opened Json
  import opened Scanner
  import opened ToolCall
  import opened Classification

  // --------------------------------------------------------- grammar expressions

  datatype CharClass = StrChar | EscapeChar | DigitChar | ExpMark | WsChar | NotLess | NotT {
    predicate Has(c: char) {
      match this
      case StrChar => c != '"' && c != '\\'
      case EscapeChar => IsEscape(c)
      case DigitChar => IsDigit(c)
      case ExpMark => c == 'e' || c == 'E'
      case WsChar => c == ' ' || c == '\t' || c == '\n'
      case NotLess => c != '<'
      case NotT => c != 't'
    }
  }

  datatype Expr =
    Lit(text: string) | Chr(cls: CharClass) | Cat(a: Expr, b: Expr) | Alt(a: Expr, b: Expr) | Star(e: Expr)

  ghost predicate Matches(e: Expr, s: string)
    decreases e, |s|
  {
    match e
    case Lit(t) => s == t
    case Chr(cls) => |s| == 1 && cls.Has(s[0])
    case Cat(a, b) => exists i :: 0 <= i <= |s| && Matches(a, s[..i]) && Matches(b, s[i..])
    case Alt(a, b) => Matches(a, s) || Matches(b, s)
    case Star(x) => s == "" || exists i :: 0 < i <= |s| && Matches(x, s[..i]) && Matches(e, s[i..])
  }

  function Opt(e: Expr): Expr { Alt(e, Lit("")) }
  function Plus(e: Expr): Expr { Cat(e, Star(e)) }

  // ----------------------------------------------------------- shared primitives

  const WS: Expr := Star(Chr(WsChar))
  const STR_CHAR: Expr := Alt(Chr(StrChar), Cat(Lit("\\"), Chr(EscapeChar)))
  const STRING: Expr := Cat(Lit("\""), Cat(Star(STR_CHAR), Lit("\"")))
  const DIGITS: Expr := Plus(Chr(DigitChar))
  const INTEGER: Expr := Cat(Opt(Lit("-")), DIGITS)
  const EXPONENT: Expr := Cat(Chr(ExpMark), Cat(Opt(Alt(Lit("-"), Lit("+"))), DIGITS))
  const NUMBER: Expr := Cat(Opt(Lit("-")), Cat(DIGITS, Cat(Opt(Cat(Lit("."), DIGITS)), Opt(EXPONENT))))
  const BOOLEAN: Expr := Alt(Lit("true"), Lit("false"))
  const PROSE_CHAR: Expr := Alt(Chr(NotLess), Cat(Lit("<"), Chr(NotT)))
  const PROSE: Expr := Plus(PROSE_CHAR)

  // ------------------------------------------------------------- typed rules

  /** The argument types the per-tool rules spell out. `Fixed` is an object with its required
      fields in order and then any of its optional fields in order; `Bag` is an object of any
      of its fields in any order, repeats included; `several` asks for two items or more. */
  datatype Kind =
    | AnyString
    | Words(words: seq<string>)
    | Integer
    | Number
    | Flag
    | ListOf(item: Kind, several: bool)
    | Fixed(required: Fields, optional: Fields)
    | Bag(fields: Fields)

  datatype Fields = FNil | FCons(name: string, kind: Kind, tail: Fields)

  function Quoted(w: string): string { "\"" + w + "\"" }

  function WordsRule(words: seq<string>): Expr
    requires words != []
  {
    if |words| == 1 then Lit(Quoted(words[0])) else Alt(Lit(Quoted(words[0])), WordsRule(words[1..]))
  }

  predicate PlainWord(w: string) {
    forall i :: 0 <= i < |w| ==> ' ' <= w[i] && w[i] != '"' && w[i] != '\\'
  }

  predicate PlainWords(words: seq<string>) {
    words != [] && forall i :: 0 <= i < |words| ==> PlainWord(words[i])
  }

  /** Kinds whose names and words need no escaping and whose objects have a first field. */
  predicate GoodKind(k: Kind) {
    match k
    case Words(ws) => PlainWords(ws)
    case ListOf(item, _) => GoodKind(item)
    case Fixed(req, opt) => req.FCons? && GoodFields(req) && GoodFields(opt)
    case Bag(fs) => fs.FCons? && GoodFields(fs)
    case _ => true
  }

  predicate GoodFields(fs: Fields) {
    fs.FCons? ==> PlainWord(fs.name) && GoodKind(fs.kind) && GoodFields(fs.tail)
  }

  /** `ws "," ws e`. */
  function Comma(e: Expr): Expr { Cat(WS, Cat(Lit(","), Cat(WS, e))) }

  function Brackets(open: string, inner: Expr, close: string): Expr {
    Cat(Lit(open), Cat(WS, Cat(inner, Cat(WS, Lit(close)))))
  }

  function Rule(k: Kind): Expr
    requires GoodKind(k)
    decreases k, 0
  {
    match k
    case AnyString => STRING
    case Words(ws) => WordsRule(ws)
    case Integer => INTEGER
    case Number => NUMBER
    case Flag => BOOLEAN
    case ListOf(item, several) =>
      var x := Rule(item);
      Brackets("[", if several then Cat(x, Plus(Comma(x))) else Opt(Cat(x, Star(Comma(x)))), "]")
    case Fixed(req, opt) => Brackets("{", Cat(RequiredRule(req), OptionalRule(opt)), "}")
    case Bag(fs) =>
      var m := MemberRule(fs);
      Brackets("{", Opt(Cat(m, Star(Comma(m)))), "}")
  }

  /** `"\"name\"" ws ":" ws value`. */
  function FieldRule(name: string, k: Kind): Expr
    requires GoodKind(k)
    decreases k, 1
  {
    Cat(Lit(Quoted(name)), Cat(WS, Cat(Lit(":"), Cat(WS, Rule(k)))))
  }

  function RequiredRule(fs: Fields): Expr
    requires fs.FCons? && GoodFields(fs)
    decreases fs, 2
  {
    if fs.tail.FNil? then FieldRule(fs.name, fs.kind)
    else Cat(FieldRule(fs.name, fs.kind), Comma(RequiredRule(fs.tail)))
  }

  function OptionalRule(fs: Fields): Expr
    requires GoodFields(fs)
    decreases fs, 2
  {
    if fs.FNil? then Lit("") else Cat(Opt(Comma(FieldRule(fs.name, fs.kind))), OptionalRule(fs.tail))
  }

  function MemberRule(fs: Fields): Expr
    requires fs.FCons? && GoodFields(fs)
    decreases fs, 2
  {
    if fs.tail.FNil? then FieldRule(fs.name, fs.kind)
    else Alt(FieldRule(fs.name, fs.kind), MemberRule(fs.tail))
  }

  // ------------------------------------------------------------ the five tools

  const UNIT_IDS: seq<string> := ["g", "kg", "oz", "lb", "ml", "l", "tsp", "tbsp", "fl_oz", "cup", "c", "f"]

  const ITEM: Kind :=
    Bag(FCons("id", AnyString, FCons("name", AnyString, FCons("qty", Number,
        FCons("unit", Words(UNIT_IDS), FCons("checked", Flag, FNil))))))

  function ArgsKind(t: ToolName): Kind {
    match t
    case StartTimer =>
      Fixed(FCons("label", AnyString, FCons("duration_sec", Integer, FNil)), FNil)
    case ConvertUnits =>
      Fixed(FCons("domain", Words(["mass", "volume", "temperature"]), FCons("value", Number,
            FCons("from_unit", Words(UNIT_IDS), FCons("to_unit", Words(UNIT_IDS), FNil)))), FNil)
    case ListManage =>
      Fixed(FCons("op", Words(["add", "remove", "check", "uncheck", "set_all"]), FNil),
            FCons("item", ITEM, FCons("items", ListOf(ITEM, false), FNil)))
    case Calculate =>
      Fixed(FCons("op", Words(["add", "sub", "mul", "div"]), FCons("operands", ListOf(Number, true), FNil)), FNil)
    case DateMath =>
      Fixed(FCons("base", AnyString, FCons("op", Words(["add", "sub"]), FCons("delta",
            Bag(FCons("days", Integer, FCons("hours", Integer, FCons("minutes", Integer, FNil)))), FNil))), FNil)
  }

  /** `{"name": <ref>, "arguments": <args>}`. */
  function CallKind(t: ToolName): Kind {
    Fixed(FCons("name", Words([t.Ref()]), FCons("arguments", ArgsKind(t), FNil)), FNil)
  }

  lemma UnitIdsPlain()
    ensures PlainWords(UNIT_IDS)
  {
  }

  lemma FieldGood(name: string, k: Kind, tail: Fields)
    requires PlainWord(name) && GoodKind(k) && GoodFields(tail)
    ensures GoodFields(FCons(name, k, tail))
  {
  }

  lemma ItemGood()
    ensures GoodKind(ITEM)
  {
    UnitIdsPlain();
    var checked := FCons("checked", Flag, FNil);
    FieldGood("checked", Flag, FNil);
    FieldGood("unit", Words(UNIT_IDS), checked);
    var unit := FCons("unit", Words(UNIT_IDS), checked);
    FieldGood("qty", Number, unit);
    var qty := FCons("qty", Number, unit);
    FieldGood("name", AnyString, qty);
    FieldGood("id", AnyString, FCons("name", AnyString, qty));
  }

  lemma ConvertUnitsGood()
    ensures GoodKind(ArgsKind(ConvertUnits))
  {
    UnitIdsPlain();
    var toUnit := FCons("to_unit", Words(UNIT_IDS), FNil);
    FieldGood("to_unit", Words(UNIT_IDS), FNil);
    FieldGood("from_unit", Words(UNIT_IDS), toUnit);
    var fromUnit := FCons("from_unit", Words(UNIT_IDS), toUnit);
    FieldGood("value", Number, fromUnit);
    FieldGood("domain", Words(["mass", "volume", "temperature"]), FCons("value", Number, fromUnit));
  }

  lemma ListManageGood()
    ensures GoodKind(ArgsKind(ListManage))
  {
    ItemGood();
    FieldGood("items", ListOf(ITEM, false), FNil);
    FieldGood("item", ITEM, FCons("items", ListOf(ITEM, false), FNil));
    FieldGood("op", Words(["add", "remove", "check", "uncheck", "set_all"]), FNil);
  }

  lemma DateMathGood()
    ensures GoodKind(ArgsKind(DateMath))
  {
    var minutes := FCons("minutes", Integer, FNil);
    FieldGood("minutes", Integer, FNil);
    FieldGood("hours", Integer, minutes);
    var hours := FCons("hours", Integer, minutes);
    FieldGood("days", Integer, hours);
    var delta := Bag(FCons("days", Integer, hours));
    FieldGood("delta", delta, FNil);
    FieldGood("op", Words(["add", "sub"]), FCons("delta", delta, FNil));
    FieldGood("base", AnyString, FCons("op", Words(["add", "sub"]), FCons("delta", delta, FNil)));
  }

  lemma ArgsKindGood(t: ToolName)
    ensures GoodKind(ArgsKind(t))
  {
    match t
    case StartTimer =>
      FieldGood("duration_sec", Integer, FNil);
      FieldGood("label", AnyString, FCons("duration_sec", Integer, FNil));
    case ConvertUnits => ConvertUnitsGood();
    case ListManage => ListManageGood();
    case Calculate =>
      FieldGood("operands", ListOf(Number, true), FNil);
      FieldGood("op", Words(["add", "sub", "mul", "div"]), FCons("operands", ListOf(Number, true), FNil));
    case DateMath => DateMathGood();
  }

  lemma RefPlain(t: ToolName)
    ensures PlainWord(t.Ref())
  {
    match t
    case StartTimer => assert PlainWord("start_timer");
    case ConvertUnits => assert PlainWord("convert_units");
    case ListManage => assert PlainWord("list_manage");
    case Calculate => assert PlainWord("calculate");
    case DateMath => assert PlainWord("date_math");
  }

  lemma CallKindGood(t: ToolName)
    ensures GoodKind(CallKind(t))
  {
    hide ArgsKind, PlainWord;
    ArgsKindGood(t);
    RefPlain(t);
    NamePlain();
    FieldGood("arguments", ArgsKind(t), FNil);
    FieldGood("name", Words([t.Ref()]), FCons("arguments", ArgsKind(t), FNil));
  }

  lemma NamePlain()
    ensures PlainWord("name") && PlainWord("arguments")
  {
  }

  function CallRule(tools: seq<ToolName>): Expr
    requires tools != []
  {
    CallKindGood(tools[0]);
    if |tools| == 1 then Rule(CallKind(tools[0])) else Alt(Rule(CallKind(tools[0])), CallRule(tools[1..]))
  }

  /** `tool-call ::= "<tool_call>" ws call ws "</tool_call>"` for the tools given. */
  function ToolCallRule(tools: seq<ToolName>): Expr
    requires tools != []
  {
    Cat(Lit(OPEN_TAG), Cat(WS, Cat(CallRule(tools), Cat(WS, Lit(CLOSE_TAG)))))
  }

  // ------------------------------------------------------ values of a kind

  /** An optional minus and digits: no point and no exponent. */
  predicate IntegerLexeme(s: string) {
    var digits := if s != "" && s[0] == '-' then s[1..] else s;
    digits != "" && forall i :: 0 <= i < |digits| ==> IsDigit(digits[i])
  }

  /** The value is of the kind; an integer is one that the library reads off an integer's lexeme. */
  ghost predicate HasType(v: Value, k: Kind, num: Decoder)
    decreases k, 0
  {
    match k
    case AnyString => v.Str?
    case Words(ws) => v.Str? && v.s in ws
    case Integer => v.Num? && exists l :: IntegerLexeme(l) && num(l) == Some(v.num)
    case Number => v.Num?
    case Flag => v.Bool?
    case ListOf(item, several) =>
      v.Arr? && (several ==> |v.items| >= 2) && forall i :: 0 <= i < |v.items| ==> HasType(v.items[i], item, num)
    case Fixed(req, opt) =>
      && v.Obj?
      && (forall n :: n in v.members ==> FieldType(n, v.members[n], req, num) || FieldType(n, v.members[n], opt, num))
      && Names(req) <= v.members.Keys
    case Bag(fs) => v.Obj? && forall n :: n in v.members ==> FieldType(n, v.members[n], fs, num)
  }

  /** Some field of that name has the value's type. */
  ghost predicate FieldType(n: string, v: Value, fs: Fields, num: Decoder)
    decreases fs, 1
  {
    fs.FCons? && ((n == fs.name && HasType(v, fs.kind, num)) || FieldType(n, v, fs.tail, num))
  }

  function Names(fs: Fields): set<string> {
    if fs.FNil? then {} else {fs.name} + Names(fs.tail)
  }

  function Rank(k: Kind): nat {
    match k
    case ListOf(item, _) => 1 + Rank(item)
    case Fixed(req, opt) => 1 + Max(FieldsRank(req), FieldsRank(opt))
    case Bag(fs) => 1 + FieldsRank(fs)
    case _ => 0
  }

  function FieldsRank(fs: Fields): nat {
    if fs.FNil? then 0 else Max(Rank(fs.kind), FieldsRank(fs.tail))
  }

  function Size(k: Kind): nat {
    match k
    case ListOf(item, _) => 1 + Size(item)
    case Fixed(req, opt) => 1 + FieldsSize(req) + FieldsSize(opt)
    case Bag(fs) => 1 + FieldsSize(fs)
    case _ => 0
  }

  function FieldsSize(fs: Fields): nat {
    if fs.FNil? then 0 else 1 + Size(fs.kind) + FieldsSize(fs.tail)
  }

  /** `c` is a tree for the text `s`, no deeper than its kind, whose value has that kind if strict. */
  ghost predicate Derives(s: string, c: Cst, k: Kind, num: Decoder) {
    && Loose(c) && s == TextOf(c, "") && Depth(c) <= Rank(k)
    && (Strict(c, num) ==> HasType(ValueOf(c, num), k, num))
  }

  // ----------------------------------------------- taking matches apart

  lemma SplitCat(a: Expr, b: Expr, s: string) returns (l: string, r: string)
    requires Matches(Cat(a, b), s)
    ensures s == l + r && Matches(a, l) && Matches(b, r)
  {
    var i :| 0 <= i <= |s| && Matches(a, s[..i]) && Matches(b, s[i..]);
    l, r := s[..i], s[i..];
  }

  lemma {:induction false} MatchWs(s: string)
    requires Matches(WS, s)
    ensures JsonWs(s)
    decreases |s|
  {
    if s != "" {
      var i :| 0 < i <= |s| && Matches(Chr(WsChar), s[..i]) && Matches(WS, s[i..]);
      MatchWs(s[i..]);
      assert s == [s[0]] + s[i..] && s[..i][0] == s[0];
    }
  }

  /** `lead ws rest`. */
  lemma SplitLead(lead: string, e: Expr, s: string) returns (ws: string, r: string)
    requires Matches(Cat(Lit(lead), Cat(WS, e)), s)
    ensures s == lead + (ws + r) && JsonWs(ws) && Matches(e, r)
  {
    var l, rest := SplitCat(Lit(lead), Cat(WS, e), s);
    ws, r := SplitCat(WS, e, rest);
    MatchWs(ws);
  }

  lemma SplitComma(e: Expr, s: string) returns (ws1: string, ws2: string, r: string)
    requires Matches(Comma(e), s)
    ensures s == ws1 + ("," + (ws2 + r)) && JsonWs(ws1) && JsonWs(ws2) && Matches(e, r)
  {
    var rest;
    ws1, rest := SplitCat(WS, Cat(Lit(","), Cat(WS, e)), s);
    MatchWs(ws1);
    ws2, r := SplitLead(",", e, rest);
  }

  lemma SplitBrackets(open: string, inner: Expr, close: string, s: string) returns (ws1: string, r: string, ws2: string)
    requires Matches(Brackets(open, inner, close), s)
    ensures s == open + (ws1 + (r + (ws2 + close))) && JsonWs(ws1) && JsonWs(ws2) && Matches(inner, r)
  {
    var rest;
    ws1, rest := SplitLead(open, Cat(inner, Cat(WS, Lit(close))), s);
    var tail, last;
    r, tail := SplitCat(inner, Cat(WS, Lit(close)), rest);
    ws2, last := SplitCat(WS, Lit(close), tail);
    MatchWs(ws2);
  }

  lemma SplitField(name: string, k: Kind, s: string) returns (mid: string, sep: string, r: string)
    requires GoodKind(k) && Matches(FieldRule(name, k), s)
    ensures s == Quoted(name) + (mid + (":" + (sep + r))) && JsonWs(mid) && JsonWs(sep) && Matches(Rule(k), r)
  {
    var rest;
    mid, rest := SplitLead(Quoted(name), Cat(Lit(":"), Cat(WS, Rule(k))), s);
    sep, r := SplitLead(":", Rule(k), rest);
  }

  lemma {:induction false} StarStep(e: Expr, s: string) returns (l: string, r: string)
    requires Matches(Star(e), s) && s != ""
    ensures s == l + r && |r| < |s| && Matches(e, l) && Matches(Star(e), r)
  {
    var i :| 0 < i <= |s| && Matches(e, s[..i]) && Matches(Star(e), s[i..]);
    l, r := s[..i], s[i..];
  }

  // ----------------------------------------------------------------- scalars

  lemma {:induction false} DeriveBody(s: string) returns (body: seq<Piece>)
    requires Matches(Star(STR_CHAR), s)
    ensures LooseBody(body) && BodyText(body, "") == s
    decreases |s|
  {
    if s == "" {
      body := [];
    } else {
      var l, r := StarStep(STR_CHAR, s);
      var tail := DeriveBody(r);
      var p: Piece;
      if Matches(Chr(StrChar), l) {
        p := Raw(l[0]);
        assert l == [l[0]];
      } else {
        var bs, e := SplitCat(Lit("\\"), Chr(EscapeChar), l);
        p := Esc(e[0]);
        assert l == ['\\', e[0]];
      }
      body := [p] + tail;
      assert body[1..] == tail && PieceText(p) == l;
    }
  }

  lemma DeriveString(s: string, num: Decoder) returns (c: Cst)
    requires Matches(STRING, s)
    ensures Derives(s, c, AnyString, num)
  {
    var q1, rest := SplitCat(Lit("\""), Cat(Star(STR_CHAR), Lit("\"")), s);
    var inner, q2 := SplitCat(Star(STR_CHAR), Lit("\""), rest);
    var body := DeriveBody(inner);
    c := CStr(body);
    BodySplit(body, "\"" + "");
    assert "\"" + "" == "\"";
  }

  function RawBody(w: string): (body: seq<Piece>) {
    if w == "" then [] else [Raw(w[0])] + RawBody(w[1..])
  }

  lemma {:induction false} RawBodyReads(w: string, k: string)
    requires PlainWord(w)
    ensures LooseBody(RawBody(w)) && StrictBody(RawBody(w))
    ensures BodyText(RawBody(w), k) == w + k && BodyValue(RawBody(w)) == w
  {
    if w == "" {
      assert w + k == k;
    } else {
      RawBodyReads(w[1..], k);
      var b := RawBody(w);
      assert b[1..] == RawBody(w[1..]);
      assert [w[0]] + (w[1..] + k) == w + k;
    }
  }

  lemma {:induction false} MatchWords(words: seq<string>, s: string) returns (w: string)
    requires words != [] && Matches(WordsRule(words), s)
    ensures w in words && s == Quoted(w)
  {
    if s == Quoted(words[0]) {
      w := words[0];
    } else {
      w := MatchWords(words[1..], s);
    }
  }

  lemma DeriveWords(words: seq<string>, s: string, num: Decoder) returns (c: Cst)
    requires PlainWords(words) && Matches(WordsRule(words), s)
    ensures Derives(s, c, Words(words), num)
  {
    var w := MatchWords(words, s);
    RawBodyReads(w, "\"" + "");
    c := CStr(RawBody(w));
    assert "\"" + (w + ("\"" + "")) == Quoted(w);
  }

  lemma {:induction false} MatchDigits(s: string)
    requires Matches(Star(Chr(DigitChar)), s)
    ensures forall i :: 0 <= i < |s| ==> IsDigit(s[i])
    decreases |s|
  {
    if s != "" {
      var l, r := StarStep(Chr(DigitChar), s);
      MatchDigits(r);
      assert s[0] == l[0];
    }
  }

  lemma MatchDigitRun(s: string)
    requires Matches(DIGITS, s)
    ensures s != "" && (forall i :: 0 <= i < |s| ==> IsDigit(s[i])) && NumChars(s)
  {
    var l, r := SplitCat(Chr(DigitChar), Star(Chr(DigitChar)), s);
    MatchDigits(r);
    assert s[0] == l[0];
  }

  lemma MatchExponent(s: string)
    requires Matches(EXPONENT, s)
    ensures NumChars(s)
  {
    hide Matches, NumChars;
    var e, rest := SplitCat(Chr(ExpMark), Cat(Opt(Alt(Lit("-"), Lit("+"))), DIGITS), s);
    var sign, digits := SplitCat(Opt(Alt(Lit("-"), Lit("+"))), DIGITS, rest);
    MatchSign(sign);
    MatchDigitRun(digits);
    MatchMark(e);
    NumCharsTwo(sign, digits);
    NumCharsTwo(e, sign + digits);
  }

  lemma MatchSign(s: string)
    requires Matches(Opt(Alt(Lit("-"), Lit("+"))), s)
    ensures NumChars(s)
  {
    assert s == "" || Matches(Alt(Lit("-"), Lit("+")), s);
  }

  lemma MatchMark(s: string)
    requires Matches(Chr(ExpMark), s)
    ensures NumChars(s)
  {
  }

  lemma NumCharsTwo(a: string, b: string)
    ensures NumChars(a) && NumChars(b) ==> NumChars(a + b)
  {
  }

  lemma DeriveInteger(s: string, num: Decoder) returns (c: Cst)
    requires Matches(INTEGER, s)
    ensures Derives(s, c, Integer, num)
  {
    var sign, digits := SplitCat(Opt(Lit("-")), DIGITS, s);
    assert sign == "" || Matches(Lit("-"), sign);
    MatchDigitRun(digits);
    c := CNum(s);
    assert s + "" == s;
    assert IntegerLexeme(s) by { assert digits == if sign == "" then s else s[1..]; }
  }

  lemma MatchFraction(s: string)
    requires Matches(Cat(Lit("."), DIGITS), s)
    ensures NumChars(s)
  {
    var dot, digits := SplitCat(Lit("."), DIGITS, s);
    MatchDigitRun(digits);
  }

  lemma MatchNumber(s: string)
    requires Matches(NUMBER, s)
    ensures NumChars(s) && s != "" && (s[0] == '-' || IsDigit(s[0]))
  {
    var sign, r1 := SplitCat(Opt(Lit("-")), Cat(DIGITS, Cat(Opt(Cat(Lit("."), DIGITS)), Opt(EXPONENT))), s);
    var whole, r2 := SplitCat(DIGITS, Cat(Opt(Cat(Lit("."), DIGITS)), Opt(EXPONENT)), r1);
    var frac, exp := SplitCat(Opt(Cat(Lit("."), DIGITS)), Opt(EXPONENT), r2);
    MatchDigitRun(whole);
    assert sign == "" || Matches(Lit("-"), sign);
    assert frac == "" || Matches(Cat(Lit("."), DIGITS), frac);
    assert exp == "" || Matches(EXPONENT, exp);
    if frac != "" { MatchFraction(frac); }
    if exp != "" { MatchExponent(exp); }
    NumCharsJoin(sign, whole, frac, exp);
  }

  lemma NumCharsJoin(a: string, b: string, c: string, d: string)
    requires NumChars(a) && NumChars(b) && NumChars(c) && NumChars(d)
    ensures NumChars(a + (b + (c + d)))
  {
  }

  lemma DeriveNumber(s: string, num: Decoder) returns (c: Cst)
    requires Matches(NUMBER, s)
    ensures Derives(s, c, Number, num)
  {
    MatchNumber(s);
    c := CNum(s);
    assert s + "" == s;
  }

  // --------------------------------------------------------- members and items

  /** Each strict member's value has the type of a field of its name. */
  ghost predicate TypedMembers(ms: Members, fs: Fields, opt: Fields, num: Decoder)
    requires LooseMembers(ms) && StrictMembers(ms, num)
  {
    ms.MCons? ==>
      && (FieldType(BodyValue(ms.key), ValueOf(ms.val, num), fs, num)
           || FieldType(BodyValue(ms.key), ValueOf(ms.val, num), opt, num))
      && TypedMembers(ms.tail, fs, opt, num)
  }

  /** Member list text `s` (without the closing brace) of the members `ms`. */
  ghost predicate Lists(s: string, ms: Members, fs: Fields, opt: Fields, num: Decoder) {
    && ms.MCons? && LooseMembers(ms) && MembersText(ms, "") == s + "}"
    && MembersDepth(ms) <= Max(FieldsRank(fs), FieldsRank(opt))
    && (StrictMembers(ms, num) ==> TypedMembers(ms, fs, opt, num))
  }

  function MemberNames(ms: Members): set<string>
    requires LooseMembers(ms)
  {
    if ms.MNil? then {} else {BodyValue(ms.key)} + MemberNames(ms.tail)
  }

  /** The member `"name" mid : sep value`, before anything that may follow it. */
  predicate OneMember(s: string, name: string, m: Members) {
    && m.MCons? && m.tail.MNil? && m.pre == "" && m.post == "" && LooseMembers(m)
    && m.key == RawBody(name) && PlainWord(name)
    && s == Quoted(name) + (m.mid + (":" + (m.sep + TextOf(m.val, ""))))
  }

  lemma OneText(s: string, name: string, m: Members, post: string, rest: string)
    requires OneMember(s, name, m)
    ensures m.pre + ("\"" + BodyText(m.key, "\"" + (m.mid + (":" + (m.sep + TextOf(m.val, post + rest)))))) ==
            s + (post + rest)
  {
    var k := post + rest;
    TreeSplit(m.val, "", k);
    assert "" + k == k;
    RawBodyReads(name, "\"" + (m.mid + (":" + (m.sep + TextOf(m.val, k)))));
    OneRegroup(name, m.mid, m.sep, TextOf(m.val, ""), k);
  }

  lemma OneRegroup(name: string, mid: string, sep: string, v: string, k: string)
    ensures "" + ("\"" + (name + ("\"" + (mid + (":" + (sep + (v + k))))))) ==
            Quoted(name) + (mid + (":" + (sep + v))) + k
  {
  }

  /** A last member, then white space. */
  lemma LastMember(s: string, name: string, m: Members, post: string, fs: Fields, opt: Fields, num: Decoder)
    requires OneMember(s, name, m) && JsonWs(post)
    requires Depth(m.val) <= Max(FieldsRank(fs), FieldsRank(opt))
    requires Strict(m.val, num) ==>
               FieldType(name, ValueOf(m.val, num), fs, num) || FieldType(name, ValueOf(m.val, num), opt, num)
    ensures Lists(s + post, m.(post := post), fs, opt, num)
  {
    RawBodyReads(name, "");
    OneText(s, name, m, post, "}" + "");
    assert s + (post + ("}" + "")) == s + post + "}";
  }

  /** A member, a comma, and more members. */
  lemma NextMember(s: string, name: string, m: Members, ws1: string, ws2: string, r: string, ms: Members,
                   fs: Fields, opt: Fields, num: Decoder)
    requires OneMember(s, name, m) && JsonWs(ws1) && JsonWs(ws2) && Lists(r, ms, fs, opt, num)
    requires Depth(m.val) <= Max(FieldsRank(fs), FieldsRank(opt))
    requires Strict(m.val, num) ==>
               FieldType(name, ValueOf(m.val, num), fs, num) || FieldType(name, ValueOf(m.val, num), opt, num)
    ensures Lists(s + (ws1 + ("," + (ws2 + r))), m.(post := ws1, tail := ms.(pre := ws2 + ms.pre)), fs, opt, num)
    ensures MemberNames(m.(post := ws1, tail := ms.(pre := ws2 + ms.pre))) == {name} + MemberNames(ms)
  {
    hide HasType, FieldType, TextOf, BodyText;
    var tail := ms.(pre := ws2 + ms.pre);
    RawBodyReads(name, "");
    Lead(ws2, r, ms, fs, opt, num);
    NextMemberText(s, name, m, ws1, ws2, r, tail);
  }

  lemma NextMemberText(s: string, name: string, m: Members, ws1: string, ws2: string, r: string, tail: Members)
    requires OneMember(s, name, m) && tail.MCons? && MembersText(tail, "") == ws2 + r + "}"
    ensures MembersText(m.(post := ws1, tail := tail), "") == s + (ws1 + ("," + (ws2 + r))) + "}"
  {
    hide TextOf, BodyText, OneMember;
    OneText(s, name, m, ws1, "," + (ws2 + r + "}"));
    assert s + (ws1 + ("," + (ws2 + r + "}"))) == s + (ws1 + ("," + (ws2 + r))) + "}";
  }

  /** White space before the first member. */
  lemma Lead(ws: string, s: string, ms: Members, fs: Fields, opt: Fields, num: Decoder)
    requires JsonWs(ws) && Lists(s, ms, fs, opt, num)
    ensures Lists(ws + s, ms.(pre := ws + ms.pre), fs, opt, num)
    ensures MemberNames(ms.(pre := ws + ms.pre)) == MemberNames(ms)
  {
    var rest := MembersText(ms, "")[|ms.pre|..];
    assert MembersText(ms, "") == ms.pre + rest;
    assert ws + (s + "}") == ws + s + "}";
    assert ws + (ms.pre + rest) == ws + ms.pre + rest;
  }

  // --------------------------------------------------------------- lists

  /** Item list text `s` (without the closing bracket) of the items `es`. */
  ghost predicate ListsItems(s: string, es: Elems, k: Kind, num: Decoder) {
    && es.ECons? && LooseElems(es) && ElemsText(es, "") == s + "]" && ElemsDepth(es) <= Rank(k)
    && (StrictElems(es, num) ==>
          forall i :: 0 <= i < |ElemsValue(es, num)| ==> HasType(ElemsValue(es, num)[i], k, num))
  }

  lemma LastItem(s: string, c: Cst, post: string, k: Kind, num: Decoder)
    requires Derives(s, c, k, num) && JsonWs(post)
    ensures ListsItems(s + post, ECons("", c, post, ENil), k, num)
  {
    var es := ECons("", c, post, ENil);
    var rest := post + ("]" + "");
    TreeSplit(c, "", rest);
    assert "" + rest == rest && "" + (s + rest) == s + rest;
    assert s + rest == s + post + "]";
    assert StrictElems(es, num) ==> ElemsValue(es, num) == [ValueOf(c, num)] + [];
  }

  lemma NextItem(s: string, c: Cst, ws1: string, ws2: string, r: string, es: Elems, k: Kind, num: Decoder)
    requires Derives(s, c, k, num) && JsonWs(ws1) && JsonWs(ws2) && ListsItems(r, es, k, num)
    ensures ListsItems(s + (ws1 + ("," + (ws2 + r))), ECons("", c, ws1, es.(pre := ws2 + es.pre)), k, num)
  {
    hide TextOf, HasType;
    var tail := es.(pre := ws2 + es.pre);
    LeadItem(ws2, r, es, k, num);
    NextItemText(s, c, ws1, ws2, r, tail);
    var all := ECons("", c, ws1, tail);
    assert ElemsText(all, "") == s + (ws1 + ("," + (ws2 + r))) + "]";
    assert StrictElems(all, num) ==> ElemsValue(all, num) == [ValueOf(c, num)] + ElemsValue(tail, num);
  }

  lemma NextItemText(s: string, c: Cst, ws1: string, ws2: string, r: string, tail: Elems)
    requires s == TextOf(c, "") && tail.ECons? && ElemsText(tail, "") == ws2 + r + "]"
    ensures ElemsText(ECons("", c, ws1, tail), "") == s + (ws1 + ("," + (ws2 + r))) + "]"
  {
    hide TextOf;
    var rest := ws1 + ("," + (ws2 + r + "]"));
    TreeSplit(c, "", rest);
    assert "" + rest == rest && "" + (s + rest) == s + rest;
    assert s + rest == s + (ws1 + ("," + (ws2 + r))) + "]";
  }

  lemma LeadItem(ws: string, s: string, es: Elems, k: Kind, num: Decoder)
    requires JsonWs(ws) && ListsItems(s, es, k, num)
    ensures ListsItems(ws + s, es.(pre := ws + es.pre), k, num)
  {
    var rest := TextOf(es.elem, es.post + (if es.tail.ENil? then "]" + "" else "," + ElemsText(es.tail, "")));
    Assoc(ws, es.pre, rest);
    Assoc(ws, s, "]");
    var es2 := es.(pre := ws + es.pre);
    assert StrictElems(es2, num) ==> ElemsValue(es2, num) == ElemsValue(es, num);
  }

  lemma {:induction false} DeriveItems(k: Kind, l: string, rest: string, post: string, num: Decoder) returns (es: Elems)
    requires GoodKind(k) && Matches(Rule(k), l) && Matches(Star(Comma(Rule(k))), rest) && JsonWs(post)
    ensures ListsItems(l + rest + post, es, k, num) && (rest != "" ==> es.tail.ECons?)
    decreases Size(k), 2, |rest|
  {
    var c := DeriveKind(k, l, num);
    if rest == "" {
      LastItem(l, c, post, k, num);
      es := ECons("", c, post, ENil);
      assert l + rest + post == l + post;
    } else {
      var step, rest2 := StarStep(Comma(Rule(k)), rest);
      var ws1, ws2, l2 := SplitComma(Rule(k), step);
      var tail := DeriveItems(k, l2, rest2, post, num);
      NextItem(l, c, ws1, ws2, l2 + rest2 + post, tail, k, num);
      es := ECons("", c, ws1, tail.(pre := ws2 + tail.pre));
      CommaRegroup(l, ws1, ws2, l2, rest2, post);
    }
  }

  lemma CommaRegroup(l: string, ws1: string, ws2: string, l2: string, rest2: string, post: string)
    ensures l + (ws1 + ("," + (ws2 + l2)) + rest2) + post == l + (ws1 + ("," + (ws2 + (l2 + rest2 + post))))
  {
  }

  lemma {:induction false} DeriveList(k: Kind, several: bool, s: string, num: Decoder) returns (c: Cst)
    requires GoodKind(k) && Matches(Rule(ListOf(k, several)), s)
    ensures Derives(s, c, ListOf(k, several), num)
    decreases Size(k) + 1, 0
  {
    hide HasType, Derives;
    var x := Rule(k);
    var inner := if several then Cat(x, Plus(Comma(x))) else Opt(Cat(x, Star(Comma(x))));
    var ws1, r, ws2 := SplitBrackets("[", inner, "]", s);
    if r == "" && !several {
      c := EmptyList(k, ws1, ws2, num);
      assert "[" + (ws1 + ("" + (ws2 + "]"))) == "[" + (ws1 + (ws2 + "]"));
    } else {
      var l, rest := ItemsOf(x, several, r);
      var es := DeriveItems(k, l, rest, ws2, num);
      c := ArrayText(ws1, l + rest, ws2, es, k, num);
      if several { SeveralItems(s, c, k, num); }
    }
  }

  lemma SeveralItems(s: string, c: Cst, k: Kind, num: Decoder)
    requires Derives(s, c, ListOf(k, false), num) && c.CArr? && c.elems.ECons? && c.elems.tail.ECons?
    ensures Derives(s, c, ListOf(k, true), num)
  {
    if Strict(c, num) { TwoItems(c.elems, num); }
  }

  lemma EmptyList(k: Kind, ws1: string, ws2: string, num: Decoder) returns (c: Cst)
    requires JsonWs(ws1) && JsonWs(ws2)
    ensures Derives("[" + (ws1 + (ws2 + "]")), c, ListOf(k, false), num)
  {
    c := CArr(ws1 + ws2, ENil);
    assert "[" + (ws1 + ws2 + ("]" + "")) == "[" + (ws1 + (ws2 + "]"));
    assert Strict(c, num) ==> ValueOf(c, num) == Arr([]);
  }

  lemma ArrayText(ws1: string, s: string, ws2: string, es: Elems, k: Kind, num: Decoder) returns (c: Cst)
    requires JsonWs(ws1) && ListsItems(s + ws2, es, k, num)
    ensures Derives("[" + (ws1 + (s + (ws2 + "]"))), c, ListOf(k, false), num)
    ensures c.CArr? && (es.tail.ECons? ==> c.elems.ECons? && c.elems.tail.ECons?)
  {
    LeadItem(ws1, s + ws2, es, k, num);
    c := CArr("", es.(pre := ws1 + es.pre));
    Assoc(ws1, s + ws2, "]");
    Assoc(s, ws2, "]");
  }

  lemma TwoItems(es: Elems, num: Decoder)
    requires LooseElems(es) && StrictElems(es, num) && es.ECons? && es.tail.ECons?
    ensures |ElemsValue(es, num)| >= 2
  {
  }

  lemma ItemsOf(x: Expr, several: bool, r: string) returns (l: string, rest: string)
    requires Matches(if several then Cat(x, Plus(Comma(x))) else Opt(Cat(x, Star(Comma(x)))), r)
    requires r != "" || several
    ensures r == l + rest && Matches(x, l) && Matches(Star(Comma(x)), rest) && (several ==> rest != "")
  {
    if several {
      l, rest := SplitCat(x, Plus(Comma(x)), r);
      var step, more := SplitCat(Comma(x), Star(Comma(x)), rest);
      var ws1, ws2, item := SplitComma(x, step);
      assert rest[..|step|] == step && rest[|step|..] == more;
    } else {
      assert Matches(Cat(x, Star(Comma(x))), r);
      l, rest := SplitCat(x, Star(Comma(x)), r);
    }
  }

  // -------------------------------------------------------------- objects

  lemma {:induction false} DeriveField(name: string, k: Kind, s: string, num: Decoder) returns (m: Members)
    requires PlainWord(name) && GoodKind(k) && Matches(FieldRule(name, k), s)
    ensures OneMember(s, name, m) && Depth(m.val) <= Rank(k)
    ensures Strict(m.val, num) ==> HasType(ValueOf(m.val, num), k, num)
    decreases Size(k), 2
  {
    var mid, sep, r := SplitField(name, k, s);
    var c := DeriveKind(k, r, num);
    RawBodyReads(name, "");
    m := MCons("", RawBody(name), mid, sep, c, "", MNil);
  }

  lemma {:induction false} DeriveMember(fs: Fields, s: string, num: Decoder) returns (name: string, m: Members)
    requires fs.FCons? && GoodFields(fs) && Matches(MemberRule(fs), s)
    ensures OneMember(s, name, m) && Depth(m.val) <= FieldsRank(fs)
    ensures Strict(m.val, num) ==> FieldType(name, ValueOf(m.val, num), fs, num)
    decreases FieldsSize(fs), 3
  {
    if Matches(FieldRule(fs.name, fs.kind), s) {
      name := fs.name;
      m := DeriveField(fs.name, fs.kind, s, num);
    } else {
      name, m := DeriveMember(fs.tail, s, num);
    }
  }

  lemma {:induction false} DeriveMembers(fs: Fields, l: string, rest: string, post: string, num: Decoder)
      returns (ms: Members)
    requires fs.FCons? && GoodFields(fs) && Matches(MemberRule(fs), l) && Matches(Star(Comma(MemberRule(fs))), rest)
    requires JsonWs(post)
    ensures Lists(l + rest + post, ms, fs, FNil, num)
    decreases FieldsSize(fs), 4, |rest|
  {
    var name, m := DeriveMember(fs, l, num);
    if rest == "" {
      LastMember(l, name, m, post, fs, FNil, num);
      ms := m.(post := post);
      assert l + rest + post == l + post;
    } else {
      var step, rest2 := StarStep(Comma(MemberRule(fs)), rest);
      var ws1, ws2, l2 := SplitComma(MemberRule(fs), step);
      var tail := DeriveMembers(fs, l2, rest2, post, num);
      NextMember(l, name, m, ws1, ws2, l2 + rest2 + post, tail, fs, FNil, num);
      ms := m.(post := ws1, tail := tail.(pre := ws2 + tail.pre));
      CommaRegroup(l, ws1, ws2, l2, rest2, post);
    }
  }

  /** `fs` is the rest of `all` from some field on. */
  predicate Suffix(fs: Fields, all: Fields) {
    fs == all || (all.FCons? && Suffix(fs, all.tail))
  }

  lemma {:induction false} SuffixType(fs: Fields, all: Fields, num: Decoder)
    requires Suffix(fs, all)
    ensures FieldsRank(fs) <= FieldsRank(all)
    ensures forall n, v :: FieldType(n, v, fs, num) ==> FieldType(n, v, all, num)
    ensures fs.FCons? ==> Suffix(fs.tail, all)
  {
    if fs != all { SuffixType(fs, all.tail, num); }
    else if fs.FCons? { assert Suffix(fs.tail, all.tail); }
  }

  /** The optional fields' text: absent, or a comma and a member list. */
  lemma {:induction false} DeriveOptional(os: Fields, req: Fields, opt: Fields, s: string, post: string, num: Decoder)
    returns (present: bool, ws1: string, ws2: string, r: string, ms: Members)
    requires GoodFields(os) && Suffix(os, opt) && Matches(OptionalRule(os), s) && JsonWs(post)
    ensures !present ==> s == ""
    ensures present ==> s == ws1 + ("," + (ws2 + r)) && JsonWs(ws1) && JsonWs(ws2) && Lists(r + post, ms, req, opt, num)
    decreases FieldsSize(os), 3
  {
    if os.FNil? {
      present, ws1, ws2, r, ms := false, "", "", "", MNil;
    } else {
      SuffixType(os, opt, num);
      var field := FieldRule(os.name, os.kind);
      var a, rest := SplitCat(Opt(Comma(field)), OptionalRule(os.tail), s);
      present, ws1, ws2, r, ms := DeriveOptional(os.tail, req, opt, rest, post, num);
      if Matches(Comma(field), a) {
        var wsA, wsB, f := SplitComma(field, a);
        ms := ExtendField(os, f, present, ws1, ws2, r, ms, post, req, opt, num);
        CommaAssoc(wsA, wsB, f, rest);
        Assoc(f, rest, post);
        present, ws1, ws2, r := true, wsA, wsB, f + rest;
      }
    }
  }

  lemma CommaAssoc(ws1: string, ws2: string, f: string, rest: string)
    ensures ws1 + ("," + (ws2 + f)) + rest == ws1 + ("," + (ws2 + (f + rest)))
  {
  }

  /** A field's member before an optional tail. */
  lemma {:induction false} ExtendField(fs: Fields, s: string, present: bool, ws1: string, ws2: string, r: string,
      ms: Members, post: string, req: Fields, opt: Fields, num: Decoder)
      returns (all: Members)
    requires fs.FCons? && GoodFields(fs) && (Suffix(fs, req) || Suffix(fs, opt))
    requires Matches(FieldRule(fs.name, fs.kind), s) && JsonWs(post)
    requires present ==> JsonWs(ws1) && JsonWs(ws2) && Lists(r + post, ms, req, opt, num)
    ensures Lists(s + ((if present then ws1 + ("," + (ws2 + r)) else "") + post), all, req, opt, num)
    ensures fs.name in MemberNames(all)
    decreases FieldsSize(fs), 2
  {
    var m := DeriveField(fs.name, fs.kind, s, num);
    if Suffix(fs, req) { SuffixType(fs, req, num); } else { SuffixType(fs, opt, num); }
    all := Extend(s, fs.name, m, present, ws1, ws2, r, ms, post, req, opt, num);
  }

  /** A member before an optional tail. */
  lemma Extend(s: string, name: string, m: Members, present: bool, ws1: string, ws2: string, r: string, ms: Members,
               post: string, req: Fields, opt: Fields, num: Decoder) returns (all: Members)
    requires OneMember(s, name, m) && JsonWs(post)
    requires Depth(m.val) <= Max(FieldsRank(req), FieldsRank(opt))
    requires Strict(m.val, num) ==>
               FieldType(name, ValueOf(m.val, num), req, num) || FieldType(name, ValueOf(m.val, num), opt, num)
    requires present ==> JsonWs(ws1) && JsonWs(ws2) && Lists(r + post, ms, req, opt, num)
    ensures Lists(s + ((if present then ws1 + ("," + (ws2 + r)) else "") + post), all, req, opt, num)
    ensures name in MemberNames(all)
  {
    RawBodyReads(name, "");
    if present {
      NextMember(s, name, m, ws1, ws2, r + post, ms, req, opt, num);
      all := m.(post := ws1, tail := ms.(pre := ws2 + ms.pre));
      assert ws1 + ("," + (ws2 + r)) + post == ws1 + ("," + (ws2 + (r + post)));
    } else {
      LastMember(s, name, m, post, req, opt, num);
      all := m.(post := post);
      assert "" + post == post;
    }
  }

  lemma {:induction false} DeriveRequired(fs: Fields, req: Fields, opt: Fields, s1: string, s2: string, post: string,
      num: Decoder)
    returns (ms: Members)
    requires fs.FCons? && GoodFields(fs) && GoodFields(opt) && Suffix(fs, req) && JsonWs(post)
    requires Matches(RequiredRule(fs), s1) && Matches(OptionalRule(opt), s2)
    ensures Lists(s1 + (s2 + post), ms, req, opt, num) && Names(fs) <= MemberNames(ms)
    decreases FieldsSize(fs) + FieldsSize(opt), 4
  {
    SuffixType(fs, req, num);
    if fs.tail.FNil? {
      var present, ws1, ws2, r, tail := DeriveOptional(opt, req, opt, s2, post, num);
      ms := ExtendField(fs, s1, present, ws1, ws2, r, tail, post, req, opt, num);
    } else {
      var f, rest := SplitCat(FieldRule(fs.name, fs.kind), Comma(RequiredRule(fs.tail)), s1);
      var ws1, ws2, r := SplitComma(RequiredRule(fs.tail), rest);
      var tail := DeriveRequired(fs.tail, req, opt, r, s2, post, num);
      var m := DeriveField(fs.name, fs.kind, f, num);
      NextMember(f, fs.name, m, ws1, ws2, r + (s2 + post), tail, req, opt, num);
      ms := m.(post := ws1, tail := tail.(pre := ws2 + tail.pre));
      CommaAssoc(ws1, ws2, r, s2 + post);
      Assoc(f, rest, s2 + post);
    }
  }

  /** The members' map has all their names, each with a field's type. */
  lemma {:induction false} MembersTyped(ms: Members, fs: Fields, opt: Fields, num: Decoder, acc: map<string, Value>)
    requires LooseMembers(ms) && StrictMembers(ms, num) && TypedMembers(ms, fs, opt, num)
    requires forall n :: n in acc ==> FieldType(n, acc[n], fs, num) || FieldType(n, acc[n], opt, num)
    ensures var v := MembersValue(ms, num, acc);
            && (forall n :: n in v ==> FieldType(n, v[n], fs, num) || FieldType(n, v[n], opt, num))
            && acc.Keys <= v.Keys && MemberNames(ms) <= v.Keys
  {
    if ms.MCons? {
      MembersTyped(ms.tail, fs, opt, num, acc[BodyValue(ms.key) := ValueOf(ms.val, num)]);
    }
  }

  lemma ObjectText(ws1: string, s: string, ms: Members, fs: Fields, opt: Fields, num: Decoder) returns (c: Cst)
    requires JsonWs(ws1) && Lists(s, ms, fs, opt, num)
    ensures Loose(c) && c.CObj? && TextOf(c, "") == "{" + (ws1 + (s + "}"))
    ensures Depth(c) <= 1 + Max(FieldsRank(fs), FieldsRank(opt))
    ensures Strict(c, num) ==>
              && (forall n :: n in ValueOf(c, num).members ==>
                    FieldType(n, ValueOf(c, num).members[n], fs, num)
                        || FieldType(n, ValueOf(c, num).members[n], opt, num))
              && MemberNames(ms) <= ValueOf(c, num).members.Keys
  {
    Lead(ws1, s, ms, fs, opt, num);
    Assoc(ws1, s, "}");
    var ms' := ms.(pre := ws1 + ms.pre);
    c := CObj("", ms');
    if Strict(c, num) { MembersTyped(ms', fs, opt, num, map[]); }
  }

  lemma {:induction false} DeriveFixed(req: Fields, opt: Fields, s: string, num: Decoder) returns (c: Cst)
    requires GoodKind(Fixed(req, opt)) && Matches(Rule(Fixed(req, opt)), s)
    ensures Derives(s, c, Fixed(req, opt), num)
    decreases FieldsSize(req) + FieldsSize(opt) + 1, 0
  {
    var ws1, r, ws2 := SplitBrackets("{", Cat(RequiredRule(req), OptionalRule(opt)), "}", s);
    var s1, s2 := SplitCat(RequiredRule(req), OptionalRule(opt), r);
    var ms := DeriveRequired(req, req, opt, s1, s2, ws2, num);
    c := ObjectText(ws1, s1 + (s2 + ws2), ms, req, opt, num);
    Regroup(s1, s2, ws2);
  }

  lemma Regroup(s1: string, s2: string, ws2: string)
    ensures s1 + (s2 + ws2) + "}" == s1 + s2 + (ws2 + "}")
  {
  }

  lemma {:induction false} DeriveBag(fs: Fields, s: string, num: Decoder) returns (c: Cst)
    requires GoodKind(Bag(fs)) && Matches(Rule(Bag(fs)), s)
    ensures Derives(s, c, Bag(fs), num)
    decreases FieldsSize(fs) + 1, 0
  {
    var m := MemberRule(fs);
    var ws1, r, ws2 := SplitBrackets("{", Opt(Cat(m, Star(Comma(m)))), "}", s);
    if r == "" {
      c := CObj(ws1 + ws2, MNil);
      assert "{" + (ws1 + ws2 + ("}" + "")) == s;
      assert Strict(c, num) ==> ValueOf(c, num) == Obj(map[]);
    } else {
      var l, rest := ItemsOf(m, false, r);
      var ms := DeriveMembers(fs, l, rest, ws2, num);
      c := ObjectText(ws1, l + rest + ws2, ms, fs, FNil, num);
      assert ws1 + (l + rest + ws2 + "}") == ws1 + (l + rest + (ws2 + "}"));
    }
  }

  /** Every text a rule derives is JSON up to control characters and number forms, and its value,
      when it is JSON, has the rule's type. */
  lemma {:induction false} DeriveKind(k: Kind, s: string, num: Decoder) returns (c: Cst)
    requires GoodKind(k) && Matches(Rule(k), s)
    ensures Derives(s, c, k, num)
    decreases Size(k), 1
  {
    match k
    case AnyString => c := DeriveString(s, num);
    case Words(ws) => c := DeriveWords(ws, s, num);
    case Integer => c := DeriveInteger(s, num);
    case Number => c := DeriveNumber(s, num);
    case Flag =>
      c := CLit(s);
      assert Matches(Lit("true"), s) || Matches(Lit("false"), s);
      assert s + "" == s;
    case ListOf(item, several) => c := DeriveList(item, several, s, num);
    case Fixed(req, opt) => c := DeriveFixed(req, opt, s, num);
    case Bag(fs) => c := DeriveBag(fs, s, num);
  }

  // ------------------------------------------------- agreement with the parser

  lemma {:induction false} CallOfTool(tools: seq<ToolName>, s: string) returns (t: ToolName)
    requires tools != [] && Matches(CallRule(tools), s)
    ensures t in tools && GoodKind(CallKind(t)) && Matches(Rule(CallKind(t)), s)
  {
    CallKindGood(tools[0]);
    if Matches(Rule(CallKind(tools[0])), s) {
      t := tools[0];
    } else {
      t := CallOfTool(tools[1..], s);
    }
  }

  lemma ArgsRank(t: ToolName)
    ensures Rank(ArgsKind(t)) <= 3
  {
    match t
    case ListManage =>
      assert FieldsRank(FCons("items", ListOf(ITEM, false), FNil)) == 2;
    case _ =>
  }

  lemma CallRank(t: ToolName)
    ensures Rank(CallKind(t)) <= 4
  {
    hide ArgsKind;
    ArgsRank(t);
    assert FieldsRank(FCons("arguments", ArgsKind(t), FNil)) <= 3;
  }

  /** A value of a tool's call kind names that tool and carries arguments of its argument kind. */
  lemma CallValue(t: ToolName, v: Value, num: Decoder)
    requires HasType(v, CallKind(t), num)
    ensures v.Get("name") == Some(Str(t.Ref()))
    ensures v.Get("arguments").Some? && HasType(v.members["arguments"], ArgsKind(t), num)
  {
    hide ArgsKind;
    var argsField := FCons("arguments", ArgsKind(t), FNil);
    var req := FCons("name", Words([t.Ref()]), argsField);
    assert Names(argsField) == {"arguments"} && Names(req) == {"name", "arguments"};
    assert "name" != "arguments" by { assert |"name"| != |"arguments"|; }
    var n := v.members["name"];
    assert !FieldType("name", n, FNil, num) && !FieldType("name", n, argsField, num);
    var a := v.members["arguments"];
    assert !FieldType("arguments", a, FNil, num);
    assert FieldType("arguments", a, argsField, num);
  }

  /** Taking a tool-call-branch text apart, for any set of tools: one call of one of the tools. */
  lemma DeriveToolCall(tools: seq<ToolName>, s: string, num: Decoder)
    returns (t: ToolName, ws1: string, c: Cst, ws2: string)
    requires tools != [] && Matches(ToolCallRule(tools), s)
    ensures t in tools && JsonWs(ws1) && JsonWs(ws2) && c.CObj? && Derives(TextOf(c, ""), c, CallKind(t), num)
    ensures s == OPEN_TAG + (ws1 + (TextOf(c, "") + (ws2 + CLOSE_TAG)))
  {
    var rest, call, tail, close;
    ws1, rest := SplitLead(OPEN_TAG, Cat(CallRule(tools), Cat(WS, Lit(CLOSE_TAG))), s);
    call, tail := SplitCat(CallRule(tools), Cat(WS, Lit(CLOSE_TAG)), rest);
    ws2, close := SplitCat(WS, Lit(CLOSE_TAG), tail);
    MatchWs(ws2);
    t := CallOfTool(tools, call);
    c := DeriveKind(CallKind(t), call, num);
    CallIsObject(t, call, c, num);
  }

  lemma CallIsObject(t: ToolName, s: string, c: Cst, num: Decoder)
    requires GoodKind(CallKind(t)) && Matches(Rule(CallKind(t)), s) && Derives(s, c, CallKind(t), num)
    ensures c.CObj?
  {
    hide HasType, ArgsKind, RequiredRule;
    var inner := Cat(RequiredRule(CallKind(t).required), OptionalRule(FNil));
    var ws1, r, ws2 := SplitBrackets("{", inner, "}", s);
    TextStart(c, "");
  }

  lemma OpenTagFirst()
    ensures Find("" + OPEN_TAG, OPEN_TAG) == Some(0)
  {
    assert "" + OPEN_TAG == OPEN_TAG && OPEN_TAG[0..|OPEN_TAG|] == OPEN_TAG;
    FoundAt(OPEN_TAG, OPEN_TAG, 0);
  }

  /** Everything the tool-call branch derives is read back as that tool's call with arguments of its
      type, exactly when the object is strict JSON (no raw control character in a string, no
      malformed or out-of-range number) without a closing tag inside a string; otherwise it is
      reported malformed. */
  lemma ToolCallAgreement(tools: seq<ToolName>, s: string, num: Decoder)
      returns (t: ToolName, ws1: string, c: Cst, ws2: string)
    requires tools != [] && Matches(ToolCallRule(tools), s)
    ensures t in tools && JsonWs(ws1) && JsonWs(ws2) && Loose(c)
    ensures s == OPEN_TAG + (ws1 + (TextOf(c, "") + (ws2 + CLOSE_TAG)))
    ensures Strict(c, num) && !Contains(TextOf(c, ""), CLOSE_TAG) ==>
              && ValueOf(c, num).Get("arguments").Some?
              && HasType(ValueOf(c, num).members["arguments"], ArgsKind(t), num)
              && ParseGeneration(s, num) == Call(t.Ref(), ValueOf(c, num).members["arguments"])
    ensures !Strict(c, num) || Contains(TextOf(c, ""), CLOSE_TAG) ==> ParseGeneration(s, num) == Malformed(s)
  {
    t, ws1, c, ws2 := DeriveToolCall(tools, s, num);
    OpenTagFirst();
    CallRank(t);
    WrappedRoundTrip("", ws1, c, ws2, "", num);
    TextSplitObject(c, ws2);
    TagRegroup(ws1, TextOf(c, ""), ws2);
    if Strict(c, num) {
      CallValue(t, ValueOf(c, num), num);
      RefNonEmpty(t);
    }
  }

  lemma RefNonEmpty(t: ToolName)
    ensures t.Ref() != ""
  {
  }

  lemma TagRegroup(ws1: string, v: string, ws2: string)
    ensures "" + (OPEN_TAG + (ws1 + (v + ws2) + (CLOSE_TAG + ""))) == OPEN_TAG + (ws1 + (v + (ws2 + CLOSE_TAG)))
  {
  }

  // ---------------------------------------------------------------- numbers

  /** More than one digit before the point, the first of them zero. */
  predicate LeadingZero(s: string) {
    var t := if s != "" && s[0] == '-' then s[1..] else s;
    |t| >= 2 && t[0] == '0' && IsDigit(t[1])
  }

  lemma {:induction false} ReadOn(p: Phase, a: string, b: string)
    ensures p.Read(a + b) == p.Read(a).Read(b)
    decreases |a|
  {
    if a == "" {
      assert a + b == b;
    } else {
      assert (a + b)[1..] == a[1..] + b;
      ReadOn(p.Next(a[0]), a[1..], b);
    }
  }

  lemma {:induction false} BadStays(s: string)
    ensures Bad.Read(s) == Bad
  {
    if s != "" { BadStays(s[1..]); }
  }

  /** Digits keep a digit phase. */
  lemma {:induction false} ReadDigits(p: Phase, s: string)
    requires (p.Whole? || p.Frac? || p.ExpDigits?) && Matches(Star(Chr(DigitChar)), s)
    ensures p.Read(s) == p
    decreases |s|
  {
    if s != "" {
      var l, r := StarStep(Chr(DigitChar), s);
      assert s[0] == l[0] && s[1..] == r;
      ReadDigits(p, r);
    }
  }

  lemma ReadExpDigits(p: Phase, s: string)
    requires (p.Exp? || p.ExpSign?) && Matches(DIGITS, s)
    ensures p.Read(s) == ExpDigits
  {
    var d, more := SplitCat(Chr(DigitChar), Star(Chr(DigitChar)), s);
    ReadOn(p, d, more);
    ReadDigits(ExpDigits, more);
  }

  lemma ReadExponent(p: Phase, s: string)
    requires (p.Zero? || p.Whole? || p.Frac?) && (s == "" || Matches(EXPONENT, s))
    ensures p.Read(s).Complete()
  {
    if s != "" {
      hide Matches, NumChars;
    var e, rest := SplitCat(Chr(ExpMark), Cat(Opt(Alt(Lit("-"), Lit("+"))), DIGITS), s);
      var sign, digits := SplitCat(Opt(Alt(Lit("-"), Lit("+"))), DIGITS, rest);
      assert sign == "" || Matches(Alt(Lit("-"), Lit("+")), sign);
      ReadOn(p, e, rest);
      ReadOn(Exp, sign, digits);
      ReadExpDigits(Exp.Read(sign), digits);
    }
  }

  lemma ReadFraction(p: Phase, s: string)
    requires (p.Zero? || p.Whole?) && Matches(Cat(Opt(Cat(Lit("."), DIGITS)), Opt(EXPONENT)), s)
    ensures p.Read(s).Complete()
  {
    var frac, exp := SplitCat(Opt(Cat(Lit("."), DIGITS)), Opt(EXPONENT), s);
    assert exp == "" || Matches(EXPONENT, exp);
    assert frac == "" || Matches(Cat(Lit("."), DIGITS), frac);
    ReadOn(p, frac, exp);
    if frac == "" {
      ReadExponent(p, exp);
    } else {
      var dot, digits := SplitCat(Lit("."), DIGITS, frac);
      var d, more := SplitCat(Chr(DigitChar), Star(Chr(DigitChar)), digits);
      ReadOn(p, dot, digits);
      ReadOn(Point, d, more);
      ReadDigits(Frac, more);
      ReadExponent(Frac, exp);
    }
  }

  /** The grammar's digits are RFC 8259's exactly when they carry no leading zero. */
  lemma ReadWhole(d: string, more: string, rest: string)
    requires Matches(Chr(DigitChar), d) && Matches(Star(Chr(DigitChar)), more)
    requires Matches(Cat(Opt(Cat(Lit("."), DIGITS)), Opt(EXPONENT)), rest)
    ensures Phase.First(d[0]).Read(more + rest).Complete() <==> !(d[0] == '0' && more != "")
  {
    var p := Phase.First(d[0]);
    ReadOn(p, more, rest);
    if d[0] != '0' {
      ReadDigits(Whole, more);
      ReadFraction(Whole, rest);
    } else if more == "" {
      ReadFraction(Zero, rest);
    } else {
      var l, r := StarStep(Chr(DigitChar), more);
      assert more[0] == l[0] && more[1..] == r;
      BadStays(r);
      BadStays(rest);
    }
  }

  /** A number the grammar derives is an RFC 8259 number exactly when it has no leading zero. */
  lemma GrammarNumberConforms(s: string)
    requires Matches(NUMBER, s)
    ensures IsNumber(s) <==> !LeadingZero(s)
  {
    var tail := Cat(Opt(Cat(Lit("."), DIGITS)), Opt(EXPONENT));
    var sign, r1 := SplitCat(Opt(Lit("-")), Cat(DIGITS, tail), s);
    var whole, rest := SplitCat(DIGITS, tail, r1);
    var d, more := SplitCat(Chr(DigitChar), Star(Chr(DigitChar)), whole);
    assert sign == "" || Matches(Lit("-"), sign);
    ReadWhole(d, more, rest);
    SecondDigit(more, rest);
    Assoc(d, more, rest);
    UnsignedConforms(sign, d, more + rest);
  }

  lemma UnsignedConforms(sign: string, d: string, u: string)
    requires (sign == "" || sign == "-") && |d| == 1 && IsDigit(d[0])
    ensures IsNumber(sign + (d + u)) <==> Phase.First(d[0]).Read(u).Complete()
    ensures LeadingZero(sign + (d + u)) <==> d[0] == '0' && |u| >= 1 && IsDigit(u[0])
  {
    var t := d + u;
    ReadOn(Start, sign, t);
    assert t[1..] == u && t[0] == d[0];
    assert sign == "-" ==> (sign + t)[1..] == t;
    assert sign == "" ==> sign + t == t;
    assert Start.Read(sign) == if sign == "" then Start else Minus;
  }

  lemma SecondDigit(more: string, rest: string)
    requires Matches(Star(Chr(DigitChar)), more)
    requires Matches(Cat(Opt(Cat(Lit("."), DIGITS)), Opt(EXPONENT)), rest)
    ensures var u := more + rest; |u| >= 1 && IsDigit(u[0]) <==> more != ""
  {
    if more != "" {
      var l, r := StarStep(Chr(DigitChar), more);
      assert more[0] == l[0];
    } else {
      var frac, exp := SplitCat(Opt(Cat(Lit("."), DIGITS)), Opt(EXPONENT), rest);
      assert exp == "" || Matches(EXPONENT, exp);
      assert frac == "" || Matches(Cat(Lit("."), DIGITS), frac);
      if frac != "" { var dot, digits := SplitCat(Lit("."), DIGITS, frac); }
      if exp != "" { var e, r := SplitCat(Chr(ExpMark), Cat(Opt(Alt(Lit("-"), Lit("+"))), DIGITS), exp); }
    }
  }

  // ---------------------------------------------------------------- prose

  /** In a prose text every `<t` is preceded by another `<`. */
  lemma {:induction false} ProseLessT(s: string, i: nat)
    requires Matches(Star(PROSE_CHAR), s) && i + 1 < |s| && s[i] == '<' && s[i + 1] == 't'
    ensures i > 0 && s[i - 1] == '<'
    decreases |s|
  {
    var l, r := StarStep(PROSE_CHAR, s);
    if Matches(Chr(NotLess), l) {
      assert s[0] == l[0];
      ProseLessT(r, i - 1);
    } else {
      var lt, x := SplitCat(Lit("<"), Chr(NotT), l);
      assert s[0] == '<' && s[1] == x[0] != 't';
      if i > 1 { ProseLessT(r, i - 2); }
    }
  }

  const ESCAPED_TAG: string := "<" + OPEN_TAG

  lemma ProseStar(s: string)
    requires Matches(PROSE, s)
    ensures Matches(Star(PROSE_CHAR), s)
  {
    var l, r := SplitCat(PROSE_CHAR, Star(PROSE_CHAR), s);
    assert l != "" by {
      assert Matches(Chr(NotLess), l) || Matches(Cat(Lit("<"), Chr(NotT)), l);
      if !Matches(Chr(NotLess), l) { var lt, x := SplitCat(Lit("<"), Chr(NotT), l); }
    }
    assert s[..|l|] == l && s[|l|..] == r;
  }

  lemma TagInEscaped(s: string, j: nat)
    requires OccursAt(s, ESCAPED_TAG, j)
    ensures OccursAt(s, OPEN_TAG, j + 1)
  {
    assert s[j + 1..j + 1 + |OPEN_TAG|] == s[j..j + |ESCAPED_TAG|][1..];
  }

  lemma EscapedAtTag(s: string, i: nat)
    requires OccursAt(s, OPEN_TAG, i) && Matches(Star(PROSE_CHAR), s)
    ensures i > 0 && OccursAt(s, ESCAPED_TAG, i - 1)
  {
    assert s[i] == s[i..i + |OPEN_TAG|][0] && s[i + 1] == s[i..i + |OPEN_TAG|][1];
    ProseLessT(s, i);
    assert s[i - 1..i - 1 + |ESCAPED_TAG|] == [s[i - 1]] + s[i..i + |OPEN_TAG|];
  }

  /** A prose-branch text reaches the wrapped parser exactly when it contains `<<tool_call>`. */
  lemma ProseAgreement(s: string)
    requires Matches(PROSE, s)
    ensures Find(s, OPEN_TAG).Some? <==> Contains(s, ESCAPED_TAG)
  {
    FindIsFirst(s, OPEN_TAG);
    ProseStar(s);
    if i: nat :| OccursAt(s, OPEN_TAG, i) { EscapedAtTag(s, i); }
    if j: nat :| OccursAt(s, ESCAPED_TAG, j) { TagInEscaped(s, j); }
  }

  /** What the prose branch derives is shown, trimmed, exactly when it does not contain `<<tool_call>`, does
      not open like a call and is not one bare object. */
  lemma ProseIsShownIff(s: string, num: Decoder)
    requires Matches(PROSE, s)
    ensures ParseGeneration(s, num) == Prose(Trim(s)) <==>
            !Contains(s, ESCAPED_TAG) && OpensNothing(Trim(s), num) && !BareNonCallObject(Trim(s), num)
    ensures ParseGeneration(s, num).Prose? ==> ParseGeneration(s, num) == Prose(Trim(s))
  {
    hide Matches, OpensNothing, BareNonCallObject, Trim, ParseGeneration;
    ProseAgreement(s);
    FindIsFirst(s, OPEN_TAG);
    if Contains(s, OPEN_TAG) {
      NeverProse(s, num);
    } else {
      UnwrappedExact(s, num);
      ProseIsTrimmed(s, num);
    }
  }

  lemma ProseIsTrimmed(text: string, num: Decoder)
    ensures ParseGeneration(text, num).Prose? ==> ParseGeneration(text, num) == Prose(Trim(text))
  {
    hide ExtractToolCall, ExtractBare, ExtractFunctionCall;
  }

  /** The condition is needed: `<<tool_call>` is prose to the grammar and malformed to the parser. */
  lemma ProseCounterexample(num: Decoder)
    ensures Matches(PROSE, ESCAPED_TAG) && ParseGeneration(ESCAPED_TAG, num) == Malformed(ESCAPED_TAG)
  {
    EscapedTagIsProse();
    assert OPEN_TAG[0..|OPEN_TAG|] == OPEN_TAG;
    var s := ESCAPED_TAG;
    assert s[1..1 + |OPEN_TAG|] == OPEN_TAG;
    assert s[0..|OPEN_TAG|][1] == '<' != OPEN_TAG[1];
    FoundAt(s, OPEN_TAG, 1);
    NoClose(s, num);
  }

  lemma NoClose(s: string, num: Decoder)
    requires Find(s, OPEN_TAG) == Some(1) && |s| == 1 + |OPEN_TAG|
    ensures ParseGeneration(s, num) == Malformed(s)
  {
    var rest := s[1 + |OPEN_TAG|..];
    assert rest == "";
    assert Find(rest, CLOSE_TAG).None?;
    assert ExtractToolCall(s, num).None?;
  }

  lemma EscapedTagIsProse()
    ensures Matches(PROSE, ESCAPED_TAG)
  {
    var s := ESCAPED_TAG;
    assert "<<"[..1] == "<" && "<<"[1..] == "<";
    assert Matches(Chr(NotT), "<<"[1..]);
    assert Matches(Cat(Lit("<"), Chr(NotT)), "<<");
    assert s[..2] == "<<" && s[2..] == "tool_call>";
    PlainProse("tool_call>");
  }

  lemma {:induction false} PlainProse(s: string)
    requires forall i :: 0 <= i < |s| ==> s[i] != '<'
    ensures Matches(Star(PROSE_CHAR), s)
  {
    if s != "" {
      assert s[..1] == [s[0]] && Matches(PROSE_CHAR, s[..1]);
      PlainProse(s[1..]);
    }
  }
}
