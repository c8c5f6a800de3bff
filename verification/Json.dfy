/** JSON as the client reads it with `serde_json::from_str` (RFC 8259): a value type, concrete
    syntax trees with the text each one stands for, and the recursive-descent reader.

    A tree may be *loose*, a superset of RFC 8259 wide enough for everything the decoding
    grammar can produce: raw control characters in strings, any run of number characters
    as a number. `ParseText` says that the reader accepts a loose tree's text exactly when
    the tree is strict, and then yields the tree's value; `ParseOrigin` says that whatever
    the reader accepts is the text of a strict tree. */
module Json {
  import opened Text

  // ------------------------------------------------------------------ values

  /** `serde_json::Number`: a 64-bit integer when the literal is one, otherwise a float.
      Floats are exact reals here. */
  datatype Number = Int(n: int) | Float(r: real)

  const I64_MIN: int := -0x8000_0000_0000_0000
  const I64_MAX: int := 0x7FFF_FFFF_FFFF_FFFF

  datatype Value =
    | Null
    | Bool(b: bool)
    | Num(num: Number)
    | Str(s: string)
    | Arr(items: seq<Value>)
    | Obj(members: map<string, Value>)
  {
    /** `Value::get` on an object; every other value has no members. */
    function Get(key: string): Option<Value> {
      if Obj? && key in members then Some(members[key]) else None
    }

    /** `Value::as_str`. */
    function AsStr(): Option<string> {
      if Str? then Some(s) else None
    }

    function AsBool(): Option<bool> {
      if Bool? then Some(b) else None
    }

    function AsArr(): Option<seq<Value>> {
      if Arr? then Some(items) else None
    }

    function AsObj(): Option<map<string, Value>> {
      if Obj? then Some(members) else None
    }

    /** `Value::as_i64`: an integer literal within 64 signed bits. */
    function AsI64(): Option<int> {
      if Num? && num.Int? && I64_MIN <= num.n <= I64_MAX then Some(num.n) else None
    }

    /** `Value::as_f64`, exactly. */
    function AsF64(): Option<real> {
      if Num? then Some(if num.Int? then num.n as real else num.r) else None
    }
  }

  // ----------------------------------------------------------------- numbers

  predicate IsNumChar(c: char) {
    IsDigit(c) || c == '+' || c == '-' || c == '.' || c == 'e' || c == 'E'
  }

  predicate NumChars(s: string) {
    forall i :: 0 <= i < |s| ==> IsNumChar(s[i])
  }

  predicate StartsNum(s: string) { s != "" && IsNumChar(s[0]) }

  /** The longest run of number characters at the front of `s`. */
  function NumRun(s: string): (r: string)
    ensures |r| <= |s|
  {
    if StartsNum(s) then [s[0]] + NumRun(s[1..]) else ""
  }

  /** Where in RFC 8259 section 6's number syntax a literal stands. */
  datatype Phase = Start | Minus | Zero | Whole | Point | Frac | Exp | ExpSign | ExpDigits | Bad {
    function Next(c: char): Phase {
      match this
      case Start => if c == '-' then Minus else First(c)
      case Minus => First(c)
      case Zero => AfterWhole(c)
      case Whole => if IsDigit(c) then Whole else AfterWhole(c)
      case Point => if IsDigit(c) then Frac else Bad
      case Frac => if IsDigit(c) then Frac else if c == 'e' || c == 'E' then Exp else Bad
      case Exp => if c == '+' || c == '-' then ExpSign else if IsDigit(c) then ExpDigits else Bad
      case ExpSign => if IsDigit(c) then ExpDigits else Bad
      case ExpDigits => if IsDigit(c) then ExpDigits else Bad
      case Bad => Bad
    }

    static function First(c: char): Phase {
      if c == '0' then Zero else if IsDigit(c) then Whole else Bad
    }

    static function AfterWhole(c: char): Phase {
      if c == '.' then Point else if c == 'e' || c == 'E' then Exp else Bad
    }

    function Read(s: string): Phase
      decreases s
    {
      if s == "" then this else Next(s[0]).Read(s[1..])
    }

    predicate Complete() { Zero? || Whole? || Frac? || ExpDigits? }
  }

  /** RFC 8259 section 6. */
  predicate IsNumber(s: string) { Start.Read(s).Complete() }

  /** How the library turns a number literal into a 64-bit number; `None` when the literal is out
      of range. Everything below holds for any such conversion. */
  type Decoder = string -> Option<Number>

  // ----------------------------------------------------------------- strings

  predicate IsHex(c: char) {
    IsDigit(c) || ('a' <= c <= 'f') || ('A' <= c <= 'F')
  }

  function HexDigit(c: char): (r: nat)
    ensures r < 16
  {
    if IsDigit(c) then (c - '0') as nat
    else if 'a' <= c <= 'f' then (c - 'a') as nat + 10
    else if 'A' <= c <= 'F' then (c - 'A') as nat + 10
    else 0
  }

  predicate IsHex4(s: string) {
    |s| == 4 && IsHex(s[0]) && IsHex(s[1]) && IsHex(s[2]) && IsHex(s[3])
  }

  function Hex4(s: string): (r: nat)
    requires |s| == 4
    ensures r < 0x1_0000
  {
    ((HexDigit(s[0]) * 16 + HexDigit(s[1])) * 16 + HexDigit(s[2])) * 16 + HexDigit(s[3])
  }

  predicate IsLead(n: int) { 0xD800 <= n < 0xDC00 }
  predicate IsTrail(n: int) { 0xDC00 <= n < 0xE000 }

  /** One character of a string literal's body. */
  datatype Piece =
    | Raw(c: char)
    | Esc(e: char)
    | Uni(hex: string)
    | Pair(lead: string, trail: string)

  predicate IsEscape(e: char) {
    e == '"' || e == '\\' || e == '/' || e == 'b' || e == 'f' || e == 'n' || e == 'r' || e == 't'
  }

  function EscapeValue(e: char): char {
    if e == 'b' then '\U{0008}' else if e == 'f' then '\U{000C}' else if e == 'n' then '\n'
    else if e == 'r' then '\r' else if e == 't' then '\t' else e
  }

  function Surrogates(lead: string, trail: string): char
    requires |lead| == 4 && |trail| == 4 && IsLead(Hex4(lead)) && IsTrail(Hex4(trail))
  {
    (0x1_0000 + (Hex4(lead) - 0xD800) * 0x400 + (Hex4(trail) - 0xDC00)) as char
  }

  predicate LoosePiece(p: Piece) {
    match p
    case Raw(c) => c != '"' && c != '\\'
    case Esc(e) => IsEscape(e)
    case Uni(h) => IsHex4(h) && !IsLead(Hex4(h)) && !IsTrail(Hex4(h))
    case Pair(l, t) => IsHex4(l) && IsHex4(t) && IsLead(Hex4(l)) && IsTrail(Hex4(t))
  }

  predicate StrictPiece(p: Piece) { p.Raw? ==> p.c >= ' ' }

  function PieceText(p: Piece): string {
    match p
    case Raw(c) => [c]
    case Esc(e) => ['\\', e]
    case Uni(h) => "\\u" + h
    case Pair(l, t) => "\\u" + l + "\\u" + t
  }

  function PieceValue(p: Piece): char
    requires LoosePiece(p)
  {
    match p
    case Raw(c) => c
    case Esc(e) => EscapeValue(e)
    case Uni(h) => Hex4(h) as char
    case Pair(l, t) => Surrogates(l, t)
  }

  predicate LooseBody(body: seq<Piece>) {
    forall i :: 0 <= i < |body| ==> LoosePiece(body[i])
  }

  predicate StrictBody(body: seq<Piece>) {
    forall i :: 0 <= i < |body| ==> StrictPiece(body[i])
  }

  /** The body's text followed by `k`. */
  function BodyText(body: seq<Piece>, k: string): string {
    if body == [] then k else PieceText(body[0]) + BodyText(body[1..], k)
  }

  function BodyValue(body: seq<Piece>): string
    requires LooseBody(body)
  {
    if body == [] then "" else [PieceValue(body[0])] + BodyValue(body[1..])
  }

  // ------------------------------------------------------------ syntax trees

  predicate IsJsonWs(c: char) { c == ' ' || c == '\t' || c == '\n' || c == '\r' }

  predicate JsonWs(s: string) {
    forall i :: 0 <= i < |s| ==> IsJsonWs(s[i])
  }

  datatype Cst =
    | CLit(word: string)
    | CNum(lex: string)
    | CStr(body: seq<Piece>)
    | CArr(gap: string, elems: Elems)
    | CObj(gap: string, members: Members)

  datatype Elems =
    | ENil
    | ECons(pre: string, elem: Cst, post: string, tail: Elems)

  datatype Members =
    | MNil
    | MCons(pre: string, key: seq<Piece>, mid: string, sep: string, val: Cst, post: string, tail: Members)

  predicate IsWord(w: string) { w == "true" || w == "false" || w == "null" }

  predicate Loose(c: Cst) {
    match c
    case CLit(w) => IsWord(w)
    case CNum(l) => NumChars(l) && l != "" && (l[0] == '-' || IsDigit(l[0]))
    case CStr(b) => LooseBody(b)
    case CArr(g, es) => JsonWs(g) && LooseElems(es)
    case CObj(g, ms) => JsonWs(g) && LooseMembers(ms)
  }

  predicate LooseElems(es: Elems) {
    es.ECons? ==> JsonWs(es.pre) && Loose(es.elem) && JsonWs(es.post) && LooseElems(es.tail)
  }

  predicate LooseMembers(ms: Members) {
    ms.MCons? ==>
      && JsonWs(ms.pre) && LooseBody(ms.key) && JsonWs(ms.mid) && JsonWs(ms.sep)
      && Loose(ms.val) && JsonWs(ms.post) && LooseMembers(ms.tail)
  }

  /** What RFC 8259 and the 64-bit float range ask beyond looseness. */
  predicate Strict(c: Cst, num: Decoder) {
    match c
    case CLit(_) => true
    case CNum(l) => IsNumber(l) && num(l).Some?
    case CStr(b) => StrictBody(b)
    case CArr(_, es) => StrictElems(es, num)
    case CObj(_, ms) => StrictMembers(ms, num)
  }

  predicate StrictElems(es: Elems, num: Decoder) {
    es.ECons? ==> Strict(es.elem, num) && StrictElems(es.tail, num)
  }

  predicate StrictMembers(ms: Members, num: Decoder) {
    ms.MCons? ==> StrictBody(ms.key) && Strict(ms.val, num) && StrictMembers(ms.tail, num)
  }

  function Max(a: nat, b: nat): nat { if a < b then b else a }

  /** Container nesting, which the reader bounds. */
  function Depth(c: Cst): nat {
    match c
    case CArr(_, es) => 1 + ElemsDepth(es)
    case CObj(_, ms) => 1 + MembersDepth(ms)
    case _ => 0
  }

  function ElemsDepth(es: Elems): nat {
    if es.ENil? then 0 else Max(Depth(es.elem), ElemsDepth(es.tail))
  }

  function MembersDepth(ms: Members): nat {
    if ms.MNil? then 0 else Max(Depth(ms.val), MembersDepth(ms.tail))
  }

  /** The tree's text followed by `k`. */
  function TextOf(c: Cst, k: string): string {
    match c
    case CLit(w) => w + k
    case CNum(l) => l + k
    case CStr(b) => "\"" + BodyText(b, "\"" + k)
    case CArr(g, es) => "[" + (if es.ENil? then g + ("]" + k) else ElemsText(es, k))
    case CObj(g, ms) => "{" + (if ms.MNil? then g + ("}" + k) else MembersText(ms, k))
  }

  function ElemsText(es: Elems, k: string): string
    requires es.ECons?
  {
    es.pre + TextOf(es.elem, es.post + (if es.tail.ENil? then "]" + k else "," + ElemsText(es.tail, k)))
  }

  function MembersText(ms: Members, k: string): string
    requires ms.MCons?
  {
    ms.pre + ("\"" + BodyText(ms.key, "\"" + (ms.mid + (":" + (ms.sep + TextOf(ms.val, ms.post +
      (if ms.tail.MNil? then "}" + k else "," + MembersText(ms.tail, k))))))))
  }

  function ValueOf(c: Cst, num: Decoder): Value
    requires Loose(c) && Strict(c, num)
  {
    match c
    case CLit(w) => if w == "null" then Null else Bool(w == "true")
    case CNum(l) => Num(num(l).value)
    case CStr(b) => Str(BodyValue(b))
    case CArr(_, es) => Arr(ElemsValue(es, num))
    case CObj(_, ms) => Obj(MembersValue(ms, num, map[]))
  }

  function ElemsValue(es: Elems, num: Decoder): seq<Value>
    requires LooseElems(es) && StrictElems(es, num)
  {
    if es.ENil? then [] else [ValueOf(es.elem, num)] + ElemsValue(es.tail, num)
  }

  /** A later member overwrites an earlier one of the same name. */
  function MembersValue(ms: Members, num: Decoder, acc: map<string, Value>): map<string, Value>
    requires LooseMembers(ms) && StrictMembers(ms, num)
    decreases ms
  {
    if ms.MNil? then acc else MembersValue(ms.tail, num, acc[BodyValue(ms.key) := ValueOf(ms.val, num)])
  }

  // ------------------------------------------------------------------ reader

  function SkipWs(s: string): (r: string)
    ensures |r| <= |s|
    ensures r != "" ==> !IsJsonWs(r[0])
  {
    if s != "" && IsJsonWs(s[0]) then SkipWs(s[1..]) else s
  }

  function Prepend(c: char, r: Option<(string, string)>): Option<(string, string)> {
    if r.None? then None else Some(([c] + r.value.0, r.value.1))
  }

  /** The rest of a string literal whose opening quote has been read, and what follows it. */
  function ParseStr(s: string): (r: Option<(string, string)>)
    ensures r.Some? ==> |r.value.1| < |s|
    decreases |s|, 2
  {
    if s == "" then None
    else if s[0] == '"' then Some(("", s[1..]))
    else if s[0] == '\\' then ParseEscape(s[1..])
    else if s[0] < ' ' then None
    else Prepend(s[0], ParseStr(s[1..]))
  }

  function ParseEscape(s: string): (r: Option<(string, string)>)
    ensures r.Some? ==> |r.value.1| < |s|
    decreases |s|, 1
  {
    if s == "" then None
    else if s[0] == 'u' then ParseUnicode(s[1..])
    else if IsEscape(s[0]) then Prepend(EscapeValue(s[0]), ParseStr(s[1..]))
    else None
  }

  function ParseUnicode(s: string): (r: Option<(string, string)>)
    ensures r.Some? ==> |r.value.1| < |s|
    decreases |s|, 0
  {
    if |s| < 4 || !IsHex4(s[..4]) || IsTrail(Hex4(s[..4])) then None
    else if !IsLead(Hex4(s[..4])) then Prepend(Hex4(s[..4]) as char, ParseStr(s[4..]))
    else if |s| < 10 || s[4] != '\\' || s[5] != 'u' || !IsHex4(s[6..10]) || !IsTrail(Hex4(s[6..10])) then None
    else Prepend(Surrogates(s[..4], s[6..10]), ParseStr(s[10..]))
  }

  function ParseWord(s: string): Option<(Value, string)> {
    if StartsWith(s, "true") then Some((Bool(true), s[4..]))
    else if StartsWith(s, "false") then Some((Bool(false), s[5..]))
    else if StartsWith(s, "null") then Some((Null, s[4..]))
    else None
  }

  function ParseNum(s: string, num: Decoder): Option<(Value, string)> {
    var lex := NumRun(s);
    if IsNumber(lex) && num(lex).Some? then Some((Num(num(lex).value), s[|lex|..])) else None
  }

  /** `depth` counts the containers that may still be opened. */
  function ParseValue(s: string, depth: nat, num: Decoder): (r: Option<(Value, string)>)
    ensures r.Some? ==> |r.value.1| < |s|
    decreases |s|, 1
  {
    var t := SkipWs(s);
    if t == "" then None
    else if t[0] == '"' then
      var (v, rest) :- ParseStr(t[1..]);
      Some((Str(v), rest))
    else if t[0] == '-' || IsDigit(t[0]) then ParseNum(t, num)
    else if t[0] == '[' then
      if depth == 0 then None else ParseArr(t[1..], depth - 1, num)
    else if t[0] == '{' then
      if depth == 0 then None else ParseObj(t[1..], depth - 1, num)
    else ParseWord(t)
  }

  /** The rest of an array, or of an object, whose opening bracket has been read. */
  function ParseArr(s: string, depth: nat, num: Decoder): (r: Option<(Value, string)>)
    ensures r.Some? ==> |r.value.1| < |s|
    decreases |s|, 3
  {
    var t := SkipWs(s);
    if t == "" then None
    else if t[0] == ']' then Some((Arr([]), t[1..]))
    else
      var (vs, rest) :- ParseElems(s, depth, num);
      Some((Arr(vs), rest))
  }

  function ParseObj(s: string, depth: nat, num: Decoder): (r: Option<(Value, string)>)
    ensures r.Some? ==> |r.value.1| < |s|
    decreases |s|, 3
  {
    var t := SkipWs(s);
    if t == "" then None
    else if t[0] == '}' then Some((Obj(map[]), t[1..]))
    else
      var (m, rest) :- ParseMembers(s, depth, num, map[]);
      Some((Obj(m), rest))
  }

  function ParseElems(s: string, depth: nat, num: Decoder): (r: Option<(seq<Value>, string)>)
    ensures r.Some? ==> |r.value.1| < |s|
    decreases |s|, 2
  {
    var (v, rest) :- ParseValue(s, depth, num);
    var t := SkipWs(rest);
    if t == "" then None
    else if t[0] == ']' then Some(([v], t[1..]))
    else if t[0] == ',' then
      var (vs, rest2) :- ParseElems(t[1..], depth, num);
      Some(([v] + vs, rest2))
    else None
  }

  function ParseMembers(s: string, depth: nat, num: Decoder, acc: map<string, Value>)
    : (r: Option<(map<string, Value>, string)>)
    ensures r.Some? ==> |r.value.1| < |s|
    decreases |s|, 2
  {
    var t := SkipWs(s);
    if t == "" || t[0] != '"' then None
    else
      var (key, afterKey) :- ParseStr(t[1..]);
      var u := SkipWs(afterKey);
      if u == "" || u[0] != ':' then None
      else
        var (v, rest) :- ParseValue(u[1..], depth, num);
        var w := SkipWs(rest);
        if w == "" then None
        else if w[0] == '}' then Some((acc[key := v], w[1..]))
        else if w[0] == ',' then ParseMembers(w[1..], depth, num, acc[key := v])
        else None
  }

  /** serde_json's recursion limit of 128 refuses the 128th open container. */
  const MAX_DEPTH: nat := 127

  /** `serde_json::from_str::<Value>`: one value, then nothing but white space. */
  function FromStr(s: string, num: Decoder): Option<Value> {
    var (v, rest) :- ParseValue(s, MAX_DEPTH, num);
    if SkipWs(rest) == "" then Some(v) else None
  }

  // ------------------------------------------- the reader inverts the printer

  lemma {:induction false} SkipWsPrefix(ws: string, k: string)
    requires JsonWs(ws) && (k == "" || !IsJsonWs(k[0]))
    ensures SkipWs(ws + k) == k
  {
    if ws == "" {
      assert ws + k == k;
    } else {
      assert IsJsonWs(ws[0]);
      assert (ws + k)[1..] == ws[1..] + k;
      SkipWsPrefix(ws[1..], k);
    }
  }

  lemma {:induction false} NumRunPrefix(lex: string, k: string)
    requires NumChars(lex) && !StartsNum(k)
    ensures NumRun(lex + k) == lex
  {
    if lex == "" {
      assert lex + k == k;
    } else {
      assert IsNumChar(lex[0]);
      assert (lex + k)[1..] == lex[1..] + k;
      NumRunPrefix(lex[1..], k);
    }
  }

  lemma PieceReads(p: Piece, k: string)
    requires LoosePiece(p)
    ensures ParseStr(PieceText(p) + k) == if StrictPiece(p) then Prepend(PieceValue(p), ParseStr(k)) else None
  {
    match p
    case Raw(c) => RawReads(c, k);
    case Esc(e) => EscReads(e, k);
    case Uni(h) => UniReads(h, k);
    case Pair(l, t) => PairReads(l, t, k);
  }

  lemma RawReads(c: char, k: string)
    requires c != '"' && c != '\\'
    ensures ParseStr([c] + k) == if c >= ' ' then Prepend(c, ParseStr(k)) else None
  {
    assert ([c] + k)[1..] == k;
  }

  lemma EscReads(e: char, k: string)
    requires IsEscape(e)
    ensures ParseStr(['\\', e] + k) == Prepend(EscapeValue(e), ParseStr(k))
  {
    var s := ['\\', e] + k;
    assert s[1..] == [e] + k && s[1..][1..] == k;
  }

  lemma UniReads(h: string, k: string)
    requires LoosePiece(Uni(h))
    ensures ParseStr("\\u" + h + k) == Prepend(PieceValue(Uni(h)), ParseStr(k))
  {
    assert (h + k)[..4] == h && (h + k)[4..] == k;
    assert ParseUnicode(h + k) == Prepend(PieceValue(Uni(h)), ParseStr(k));
    UnicodeReads(h + k);
    assert "\\u" + h + k == "\\u" + (h + k);
  }

  lemma UnicodeReads(u: string)
    ensures ParseStr("\\u" + u) == ParseUnicode(u)
  {
    var s := "\\u" + u;
    assert s[1..] == "u" + u && s[1..][1..] == u;
  }

  lemma PairReads(l: string, t: string, k: string)
    requires LoosePiece(Pair(l, t))
    ensures ParseStr("\\u" + l + "\\u" + t + k) == Prepend(PieceValue(Pair(l, t)), ParseStr(k))
  {
    var u := l + "\\u" + t + k;
    PairCut(l, t, k);
    assert ParseUnicode(u) == Prepend(PieceValue(Pair(l, t)), ParseStr(k));
    UnicodeReads(u);
    assert "\\u" + l + "\\u" + t + k == "\\u" + u;
  }

  lemma PairCut(l: string, t: string, k: string)
    requires |l| == 4 && |t| == 4
    ensures var u := l + "\\u" + t + k;
            |u| >= 10 && u[..4] == l && u[4] == '\\' && u[5] == 'u' && u[6..10] == t && u[10..] == k
  {
  }

  lemma {:induction false} ParseStrText(body: seq<Piece>, k: string)
    requires LooseBody(body)
    ensures ParseStr(BodyText(body, "\"" + k)) == if StrictBody(body) then Some((BodyValue(body), k)) else None
  {
    if body == [] {
      assert ("\"" + k)[1..] == k;
    } else {
      assert LoosePiece(body[0]);
      PieceReads(body[0], BodyText(body[1..], "\"" + k));
      ParseStrText(body[1..], k);
      assert StrictBody(body) <==> StrictPiece(body[0]) && StrictBody(body[1..]);
    }
  }

  /** Every tree's text starts with a character that tells its kind. */
  lemma TextStart(c: Cst, k: string)
    requires Loose(c)
    ensures var s := TextOf(c, k); s != "" && !IsJsonWs(s[0]) && s[0] != ']' && s[0] != '}' && s[0] != ','
    ensures c.CObj? <==> TextOf(c, k)[0] == '{'
    ensures TextOf(c, k)[0] == '-' || IsDigit(TextOf(c, k)[0]) ==> c.CNum?
  {
  }

  ghost function ElemsRest(es: Elems, k: string): string
    requires es.ECons?
  {
    es.post + (if es.tail.ENil? then "]" + k else "," + ElemsText(es.tail, k))
  }

  ghost function MembersRest(ms: Members, k: string): string
    requires ms.MCons?
  {
    ms.mid + (":" + (ms.sep + TextOf(ms.val, MembersTail(ms, k))))
  }

  ghost function MembersTail(ms: Members, k: string): string
    requires ms.MCons?
  {
    ms.post + (if ms.tail.MNil? then "}" + k else "," + MembersText(ms.tail, k))
  }

  /** Leading white space is skipped before any value. */
  lemma ParseSkips(ws: string, s: string, depth: nat, num: Decoder)
    requires JsonWs(ws) && s != "" && !IsJsonWs(s[0])
    ensures ParseValue(ws + s, depth, num) == ParseValue(s, depth, num)
  {
    SkipWsPrefix(ws, s);
    SkipWsPrefix("", s);
    assert "" + s == s;
  }

  // One step of the reader on an arbitrary text, by the character it looks at.

  lemma ScalarStep(s: string, depth: nat, num: Decoder)
    requires s != "" && !IsJsonWs(s[0]) && s[0] != '[' && s[0] != '{'
    ensures ParseValue(s, depth, num) ==
            if s[0] == '"' then
              (if ParseStr(s[1..]).None? then None else Some((Str(ParseStr(s[1..]).value.0), ParseStr(s[1..]).value.1)))
            else if s[0] == '-' || IsDigit(s[0]) then ParseNum(s, num)
            else ParseWord(s)
  {
    assert SkipWs(s) == s;
  }

  lemma ContainerStep(s: string, depth: nat, num: Decoder)
    requires s != "" && (s[0] == '[' || s[0] == '{')
    ensures ParseValue(s, depth, num) ==
            if depth == 0 then None
            else if s[0] == '[' then ParseArr(s[1..], depth - 1, num)
            else ParseObj(s[1..], depth - 1, num)
  {
    assert SkipWs(s) == s;
  }

  lemma ElemsStep(s: string, depth: nat, num: Decoder, v: Value, rest: string)
    requires ParseValue(s, depth, num) == Some((v, rest))
    ensures var t := SkipWs(rest);
            (t != "" && t[0] == ']' ==> ParseElems(s, depth, num) == Some(([v], t[1..]))) &&
            (t != "" && t[0] == ',' && ParseElems(t[1..], depth, num).None? ==> ParseElems(s, depth, num).None?) &&
            (t != "" && t[0] == ',' && ParseElems(t[1..], depth, num).Some? ==>
               ParseElems(s, depth, num) ==
               Some(([v] + ParseElems(t[1..], depth, num).value.0, ParseElems(t[1..], depth, num).value.1)))
  {
  }

  lemma ElemsStepNone(s: string, depth: nat, num: Decoder)
    requires ParseValue(s, depth, num).None?
    ensures ParseElems(s, depth, num).None?
  {
  }

  /** A member name and its colon read, the value comes next. */
  lemma MembersStep(s: string, depth: nat, num: Decoder, acc: map<string, Value>, key: string, afterKey: string,
      s2: string)
    requires var t := SkipWs(s); t != "" && t[0] == '"' && ParseStr(t[1..]) == Some((key, afterKey))
    requires var u := SkipWs(afterKey); u != "" && u[0] == ':' && s2 == u[1..]
    ensures ParseValue(s2, depth, num).None? ==> ParseMembers(s, depth, num, acc).None?
    ensures ParseValue(s2, depth, num).Some? ==>
              var v := ParseValue(s2, depth, num).value.0;
              var w := SkipWs(ParseValue(s2, depth, num).value.1);
              (w != "" && w[0] == '}' ==> ParseMembers(s, depth, num, acc) == Some((acc[key := v], w[1..]))) &&
              (w != "" && w[0] == ',' ==>
                 ParseMembers(s, depth, num, acc) == ParseMembers(w[1..], depth, num, acc[key := v]))
  {
  }

  lemma MembersStepBadKey(s: string, depth: nat, num: Decoder, acc: map<string, Value>)
    requires var t := SkipWs(s); t != "" && t[0] == '"' && ParseStr(t[1..]).None?
    ensures ParseMembers(s, depth, num, acc).None?
  {
  }

  /** The reader on a loose tree's text: it accepts exactly the strict trees that are not too
      deep, yields the tree's value, and stops exactly where the tree's text stops. */
  lemma {:induction false} ParseText(c: Cst, k: string, depth: nat, num: Decoder)
    requires Loose(c) && (c.CNum? ==> !StartsNum(k))
    ensures Reads(c, k, depth, num)
    decreases c, 1
  {
    hide Reads, ElemsRead, MembersRead, JsonWs;
    if c.CArr? && c.elems.ECons? {
      if depth > 0 { ParseElemsText(c.elems, k, depth - 1, num); }
      ParseArray(c.elems, c.gap, k, depth, num);
    } else if c.CObj? && c.members.MCons? {
      if depth > 0 { ParseMembersText(c.members, k, depth - 1, num, map[]); }
      ParseObject(c.members, c.gap, k, depth, num);
    } else if c.CArr? || c.CObj? {
      ParseEmpty(c, k, depth, num);
    } else {
      ParseScalar(c, k, depth, num);
    }
  }

  ghost predicate Reads(c: Cst, k: string, depth: nat, num: Decoder)
    requires Loose(c)
  {
    ParseValue(TextOf(c, k), depth, num) ==
    if Strict(c, num) && Depth(c) <= depth then Some((ValueOf(c, num), k)) else None
  }

  ghost predicate ElemsRead(es: Elems, k: string, depth: nat, num: Decoder)
    requires es.ECons? && LooseElems(es)
  {
    ParseElems(ElemsText(es, k), depth, num) ==
    if StrictElems(es, num) && ElemsDepth(es) <= depth then Some((ElemsValue(es, num), k)) else None
  }

  ghost predicate MembersRead(ms: Members, k: string, depth: nat, num: Decoder, acc: map<string, Value>)
    requires ms.MCons? && LooseMembers(ms)
  {
    ParseMembers(MembersText(ms, k), depth, num, acc) ==
    if StrictMembers(ms, num) && MembersDepth(ms) <= depth then Some((MembersValue(ms, num, acc), k)) else None
  }

  lemma ParseScalar(c: Cst, k: string, depth: nat, num: Decoder)
    requires Loose(c) && (c.CNum? ==> !StartsNum(k)) && !c.CArr? && !c.CObj?
    ensures Reads(c, k, depth, num)
  {
    var s := TextOf(c, k);
    TextStart(c, k);
    ScalarStep(s, depth, num);
    match c
    case CLit(w) =>
      assert s[|w|..] == k;
      assert w == "true" ==> s[0..4] == w;
      assert w == "false" ==> s[0..5] == w && s[0] == 'f';
      assert w == "null" ==> s[0..4] == w && s[0] == 'n';
    case CNum(l) =>
      NumRunPrefix(l, k);
      assert s[|l|..] == k;
    case CStr(b) =>
      ParseStrText(b, k);
      assert s[1..] == BodyText(b, "\"" + k);
  }

  lemma ParseEmpty(c: Cst, k: string, depth: nat, num: Decoder)
    requires Loose(c) && ((c.CArr? && c.elems.ENil?) || (c.CObj? && c.members.MNil?))
    ensures Reads(c, k, depth, num)
  {
    var s := TextOf(c, k);
    ContainerStep(s, depth, num);
    var closer := if c.CArr? then "]" + k else "}" + k;
    assert s[1..] == c.gap + closer;
    SkipWsPrefix(c.gap, closer);
    assert closer[1..] == k;
    if c.CArr? {
      assert depth > 0 ==> ParseArr(c.gap + closer, depth - 1, num) == Some((ValueOf(c, num), k));
    } else {
      assert depth > 0 ==> ParseObj(c.gap + closer, depth - 1, num) == Some((ValueOf(c, num), k));
    }
  }

  lemma ParseArray(es: Elems, gap: string, k: string, depth: nat, num: Decoder)
    requires Loose(CArr(gap, es)) && es.ECons?
    requires depth > 0 ==> ElemsRead(es, k, depth - 1, num)
    ensures Reads(CArr(gap, es), k, depth, num)
  {
    var s := TextOf(CArr(gap, es), k);
    ContainerStep(s, depth, num);
    assert s[1..] == ElemsText(es, k);
    TextStart(es.elem, ElemsRest(es, k));
    SkipWsPrefix(es.pre, TextOf(es.elem, ElemsRest(es, k)));
  }

  lemma ParseObject(ms: Members, gap: string, k: string, depth: nat, num: Decoder)
    requires Loose(CObj(gap, ms)) && ms.MCons?
    requires depth > 0 ==> MembersRead(ms, k, depth - 1, num, map[])
    ensures Reads(CObj(gap, ms), k, depth, num)
  {
    var s := TextOf(CObj(gap, ms), k);
    ContainerStep(s, depth, num);
    assert s[1..] == MembersText(ms, k);
    SkipWsPrefix(ms.pre, "\"" + BodyText(ms.key, "\"" + MembersRest(ms, k)));
  }

  lemma {:induction false} ParseElemsText(es: Elems, k: string, depth: nat, num: Decoder)
    requires es.ECons? && LooseElems(es)
    ensures ElemsRead(es, k, depth, num)
    decreases es, 2
  {
    var s := ElemsText(es, k);
    var after := ElemsRest(es, k);
    ElemReads(es, k, depth, num);
    if !Strict(es.elem, num) || Depth(es.elem) > depth {
      ElemsStepNone(s, depth, num);
    } else if es.tail.ENil? {
      SkipWsPrefix(es.post, "]" + k);
      assert ("]" + k)[1..] == k;
      ElemsStep(s, depth, num, ValueOf(es.elem, num), after);
      assert StrictElems(es.tail, num) && ElemsDepth(es.tail) == 0;
      assert ElemsValue(es, num) == [ValueOf(es.elem, num)] + [] == [ValueOf(es.elem, num)];
    } else {
      var tail := ElemsText(es.tail, k);
      SkipWsPrefix(es.post, "," + tail);
      assert ("," + tail)[1..] == tail;
      ElemsStep(s, depth, num, ValueOf(es.elem, num), after);
      ParseElemsText(es.tail, k, depth, num);
    }
  }

  lemma {:induction false} ElemReads(es: Elems, k: string, depth: nat, num: Decoder)
    requires es.ECons? && LooseElems(es)
    ensures ParseValue(ElemsText(es, k), depth, num) ==
            if Strict(es.elem, num) && Depth(es.elem) <= depth then Some((ValueOf(es.elem, num), ElemsRest(es, k)))
                else None
    decreases es, 1
  {
    var after := ElemsRest(es, k);
    assert !StartsNum(after) by { assert es.post != "" ==> IsJsonWs(es.post[0]); }
    TextStart(es.elem, after);
    ParseSkips(es.pre, TextOf(es.elem, after), depth, num);
    ParseText(es.elem, after, depth, num);
  }

  lemma {:induction false} ParseMembersText(ms: Members, k: string, depth: nat, num: Decoder, acc: map<string, Value>)
    requires ms.MCons? && LooseMembers(ms)
    ensures MembersRead(ms, k, depth, num, acc)
    decreases ms, 2
  {
    var s := MembersText(ms, k);
    MemberNameReads(ms, k);
    if !StrictBody(ms.key) {
      MembersStepBadKey(s, depth, num, acc);
    } else {
      MemberValueReads(ms, k, depth, num);
      var s2 := ms.sep + TextOf(ms.val, MembersTail(ms, k));
      MembersStep(s, depth, num, acc, BodyValue(ms.key), MembersRest(ms, k), s2);
      if Strict(ms.val, num) && Depth(ms.val) <= depth { MembersTailReads(ms, k, depth, num, acc); }
    }
  }

  lemma {:induction false} MembersTailReads(ms: Members, k: string, depth: nat, num: Decoder, acc: map<string, Value>)
    requires ms.MCons? && LooseMembers(ms) && StrictBody(ms.key) && Strict(ms.val, num) && Depth(ms.val) <= depth
    requires var acc2 := acc[BodyValue(ms.key) := ValueOf(ms.val, num)];
             var w := SkipWs(MembersTail(ms, k));
             && (w != "" && w[0] == '}' ==> ParseMembers(MembersText(ms, k), depth, num, acc) == Some((acc2, w[1..])))
             && (w != "" && w[0] == ',' ==>
                   ParseMembers(MembersText(ms, k), depth, num, acc) == ParseMembers(w[1..], depth, num, acc2))
    ensures MembersRead(ms, k, depth, num, acc)
    decreases ms, 1
  {
    var acc2 := acc[BodyValue(ms.key) := ValueOf(ms.val, num)];
    if ms.tail.MNil? {
      SkipWsPrefix(ms.post, "}" + k);
      assert ("}" + k)[1..] == k;
      assert StrictMembers(ms.tail, num) && MembersDepth(ms.tail) == 0 && MembersValue(ms.tail, num, acc2) == acc2;
    } else {
      var tail := MembersText(ms.tail, k);
      SkipWsPrefix(ms.post, "," + tail);
      assert ("," + tail)[1..] == tail;
      ParseMembersText(ms.tail, k, depth, num, acc2);
    }
  }

  lemma MemberNameReads(ms: Members, k: string)
    requires ms.MCons? && LooseMembers(ms)
    ensures var t := SkipWs(MembersText(ms, k));
            t != "" && t[0] == '"' &&
            ParseStr(t[1..]) == if StrictBody(ms.key) then Some((BodyValue(ms.key), MembersRest(ms, k))) else None
    ensures SkipWs(MembersRest(ms, k)) == ":" + (ms.sep + TextOf(ms.val, MembersTail(ms, k)))
  {
    var rest := MembersRest(ms, k);
    var keyText := BodyText(ms.key, "\"" + rest);
    SkipWsPrefix(ms.pre, "\"" + keyText);
    assert ("\"" + keyText)[1..] == keyText;
    ParseStrText(ms.key, rest);
    SkipWsPrefix(ms.mid, ":" + (ms.sep + TextOf(ms.val, MembersTail(ms, k))));
  }

  lemma {:induction false} MemberValueReads(ms: Members, k: string, depth: nat, num: Decoder)
    requires ms.MCons? && LooseMembers(ms)
    ensures ParseValue(ms.sep + TextOf(ms.val, MembersTail(ms, k)), depth, num) ==
            if Strict(ms.val, num) && Depth(ms.val) <= depth then Some((ValueOf(ms.val, num), MembersTail(ms, k)))
                else None
    decreases ms, 1
  {
    var tail := MembersTail(ms, k);
    assert !StartsNum(tail) by { assert ms.post != "" ==> IsJsonWs(ms.post[0]); }
    TextStart(ms.val, tail);
    ParseSkips(ms.sep, TextOf(ms.val, tail), depth, num);
    ParseText(ms.val, tail, depth, num);
  }

  // ----------------------------------- whatever the reader accepts is JSON text

  lemma {:induction false} SkipWsSplit(s: string)
    ensures JsonWs(s[..|s| - |SkipWs(s)|]) && s == s[..|s| - |SkipWs(s)|] + SkipWs(s)
  {
    if s != "" && IsJsonWs(s[0]) {
      SkipWsSplit(s[1..]);
      var n := |s| - |SkipWs(s)|;
      assert s[..n] == [s[0]] + s[1..][..n - 1];
    } else {
      assert s[..0] + s == s;
    }
  }

  lemma WsSplit(s: string) returns (ws: string)
    ensures JsonWs(ws) && s == ws + SkipWs(s)
  {
    SkipWsSplit(s);
    ws := s[..|s| - |SkipWs(s)|];
  }

  lemma {:induction false} NumRunSplit(s: string)
    ensures NumChars(NumRun(s)) && s == NumRun(s) + s[|NumRun(s)|..]
  {
    if StartsNum(s) {
      NumRunSplit(s[1..]);
    }
  }

  lemma {:induction false} StrOrigin(s: string) returns (body: seq<Piece>)
    requires ParseStr(s).Some?
    ensures LooseBody(body) && StrictBody(body)
    ensures s == BodyText(body, "\"" + ParseStr(s).value.1) && ParseStr(s).value.0 == BodyValue(body)
    decreases |s|
  {
    if s[0] == '"' {
      body := [];
    } else {
      var p, rest := PieceOrigin(s);
      var tail := StrOrigin(rest);
      body := [p] + tail;
      assert body[1..] == tail;
    }
  }

  lemma PieceOrigin(s: string) returns (p: Piece, rest: string)
    requires ParseStr(s).Some? && s[0] != '"'
    ensures LoosePiece(p) && StrictPiece(p) && s == PieceText(p) + rest && |rest| < |s|
    ensures ParseStr(s) == Prepend(PieceValue(p), ParseStr(rest)) && ParseStr(rest).Some?
  {
    if s[0] != '\\' {
      p, rest := Raw(s[0]), s[1..];
    } else if s[1] != 'u' {
      assert ParseEscape(s[1..]).Some?;
      p, rest := Esc(s[1]), s[2..];
      assert s[1..][1..] == rest;
    } else {
      var u := s[1..][1..];
      assert s == "\\u" + u;
      assert ParseStr(s) == ParseEscape(s[1..]) == ParseUnicode(u);
      if !IsLead(Hex4(u[..4])) {
        p, rest := Uni(u[..4]), u[4..];
        assert u == u[..4] + rest;
      } else {
        p, rest := Pair(u[..4], u[6..10]), u[10..];
        assert u == u[..4] + "\\u" + u[6..10] + rest;
      }
    }
  }

  /** The reader's answer on `s` is what the tree `c` after white space `ws` stands for. */
  ghost predicate Denotes(s: string, depth: nat, num: Decoder, ws: string, c: Cst)
    requires ParseValue(s, depth, num).Some?
  {
    && JsonWs(ws) && Loose(c) && Strict(c, num) && Depth(c) <= depth
    && s == ws + TextOf(c, ParseValue(s, depth, num).value.1)
    && ParseValue(s, depth, num).value.0 == ValueOf(c, num)
  }

  lemma {:induction false} ParseOrigin(s: string, depth: nat, num: Decoder) returns (ws: string, c: Cst)
    requires ParseValue(s, depth, num).Some?
    ensures Denotes(s, depth, num, ws, c)
    decreases |s|, 1
  {
    ws := WsSplit(s);
    var t := SkipWs(s);
    if t[0] == '[' {
      c := ArrOrigin(t[1..], depth - 1, num);
      assert t == "[" + t[1..];
    } else if t[0] == '{' {
      c := ObjOrigin(t[1..], depth - 1, num);
      assert t == "{" + t[1..];
    } else {
      c := ScalarOrigin(s, depth, num);
    }
  }

  lemma ScalarOrigin(s: string, depth: nat, num: Decoder) returns (c: Cst)
    requires ParseValue(s, depth, num).Some? && SkipWs(s)[0] != '[' && SkipWs(s)[0] != '{'
    ensures Loose(c) && Strict(c, num) && Depth(c) == 0
    ensures SkipWs(s) == TextOf(c, ParseValue(s, depth, num).value.1)
    ensures ParseValue(s, depth, num).value.0 == ValueOf(c, num)
  {
    var t := SkipWs(s);
    if t[0] == '"' {
      var body := StrOrigin(t[1..]);
      c := CStr(body);
      assert t == "\"" + t[1..];
    } else if t[0] == '-' || IsDigit(t[0]) {
      NumRunSplit(t);
      c := CNum(NumRun(t));
    } else {
      c := CLit(if StartsWith(t, "true") then "true" else if StartsWith(t, "false") then "false" else "null");
      assert t == c.word + t[|c.word|..];
    }
  }

  lemma {:induction false} ArrOrigin(s: string, depth: nat, num: Decoder) returns (c: Cst)
    requires ParseArr(s, depth, num).Some?
    ensures c.CArr? && Loose(c) && Strict(c, num) && Depth(c) <= depth + 1
    ensures "[" + s == TextOf(c, ParseArr(s, depth, num).value.1)
    ensures ParseArr(s, depth, num).value.0 == ValueOf(c, num)
    decreases |s|, 3
  {
    var t := SkipWs(s);
    if t[0] == ']' {
      var ws := WsSplit(s);
      c := CArr(ws, ENil);
      assert t == "]" + t[1..];
    } else {
      var es := ElemsOrigin(s, depth, num);
      c := CArr("", es);
    }
  }

  lemma {:induction false} ObjOrigin(s: string, depth: nat, num: Decoder) returns (c: Cst)
    requires ParseObj(s, depth, num).Some?
    ensures c.CObj? && Loose(c) && Strict(c, num) && Depth(c) <= depth + 1
    ensures "{" + s == TextOf(c, ParseObj(s, depth, num).value.1)
    ensures ParseObj(s, depth, num).value.0 == ValueOf(c, num)
    decreases |s|, 3
  {
    var t := SkipWs(s);
    if t[0] == '}' {
      var ws := WsSplit(s);
      c := CObj(ws, MNil);
      assert t == "}" + t[1..];
    } else {
      var ms := MembersOrigin(s, depth, num, map[]);
      c := CObj("", ms);
    }
  }

  lemma {:induction false} ElemsOrigin(s: string, depth: nat, num: Decoder) returns (es: Elems)
    requires ParseElems(s, depth, num).Some?
    ensures es.ECons? && LooseElems(es) && StrictElems(es, num) && ElemsDepth(es) <= depth
    ensures s == ElemsText(es, ParseElems(s, depth, num).value.1)
    ensures ParseElems(s, depth, num).value.0 == ElemsValue(es, num)
    decreases |s|, 2
  {
    var pre, c := ParseOrigin(s, depth, num);
    var rest := ParseValue(s, depth, num).value.1;
    var post := WsSplit(rest);
    var t := SkipWs(rest);
    if t[0] == ']' {
      es := ECons(pre, c, post, ENil);
      assert t == "]" + t[1..];
      assert ElemsValue(es, num) == [ValueOf(c, num)];
    } else {
      var tail := ElemsOrigin(t[1..], depth, num);
      es := ECons(pre, c, post, tail);
      assert t == "," + t[1..];
    }
  }

  lemma {:induction false} MembersOrigin(s: string, depth: nat, num: Decoder, acc: map<string, Value>)
      returns (ms: Members)
    requires ParseMembers(s, depth, num, acc).Some?
    ensures ms.MCons? && LooseMembers(ms) && StrictMembers(ms, num) && MembersDepth(ms) <= depth
    ensures s == MembersText(ms, ParseMembers(s, depth, num, acc).value.1)
    ensures ParseMembers(s, depth, num, acc).value.0 == MembersValue(ms, num, acc)
    decreases |s|, 2
  {
    var w;
    ms, w := MemberOrigin(s, depth, num, acc);
    var acc2 := acc[BodyValue(ms.key) := ValueOf(ms.val, num)];
    if w[0] == '}' {
      assert w == "}" + w[1..];
      assert MembersValue(ms, num, acc) == acc2;
    } else {
      var tail := MembersOrigin(w[1..], depth, num, acc2);
      ms := ms.(tail := tail);
      assert w == "," + w[1..];
    }
  }

  /** The first member of a list, and what follows it. */
  lemma {:induction false} MemberOrigin(s: string, depth: nat, num: Decoder, acc: map<string, Value>)
    returns (m: Members, w: string)
    requires ParseMembers(s, depth, num, acc).Some?
    ensures m.MCons? && m.tail.MNil? && LooseMembers(m) && StrictMembers(m, num) && Depth(m.val) <= depth
    ensures |w| < |s| && w != "" && (w[0] == '}' || w[0] == ',')
    ensures s == m.pre + ("\"" + BodyText(m.key, "\"" + (m.mid + (":" + (m.sep + TextOf(m.val, m.post + w))))))
    ensures var acc2 := acc[BodyValue(m.key) := ValueOf(m.val, num)];
            ParseMembers(s, depth, num, acc) ==
            if w[0] == '}' then Some((acc2, w[1..])) else ParseMembers(w[1..], depth, num, acc2)
    decreases |s|, 1
  {
    var pre, key, mid, u := NameOrigin(s, depth, num, acc);
    var sep, c := ParseOrigin(u, depth, num);
    var rest := ParseValue(u, depth, num).value.1;
    var post := WsSplit(rest);
    w := SkipWs(rest);
    m := MCons(pre, key, mid, sep, c, post, MNil);
    MembersStep(s, depth, num, acc, BodyValue(key), ParseStr(SkipWs(s)[1..]).value.1, u);
  }

  /** What a successful reading of members has seen at the front. */
  lemma MembersHead(s: string, depth: nat, num: Decoder, acc: map<string, Value>)
    requires ParseMembers(s, depth, num, acc).Some?
    ensures var t := SkipWs(s);
            && t != "" && t[0] == '"' && ParseStr(t[1..]).Some?
            && var v := SkipWs(ParseStr(t[1..]).value.1);
            && v != "" && v[0] == ':' && ParseValue(v[1..], depth, num).Some?
            && var w := SkipWs(ParseValue(v[1..], depth, num).value.1);
            && w != "" && (w[0] == '}' || w[0] == ',')
  {
  }

  /** The member's name and colon, up to its value's text `u`. */
  lemma NameOrigin(s: string, depth: nat, num: Decoder, acc: map<string, Value>)
    returns (pre: string, key: seq<Piece>, mid: string, u: string)
    requires ParseMembers(s, depth, num, acc).Some?
    ensures JsonWs(pre) && LooseBody(key) && StrictBody(key) && JsonWs(mid) && |u| < |s|
    ensures s == pre + ("\"" + BodyText(key, "\"" + (mid + (":" + u))))
    ensures var t := SkipWs(s);
            t != "" && t[0] == '"' && ParseStr(t[1..]).Some? && BodyValue(key) == ParseStr(t[1..]).value.0
    ensures SkipWs(ParseStr(SkipWs(s)[1..]).value.1) == ":" + u
    ensures ParseValue(u, depth, num).Some?
    ensures var w := SkipWs(ParseValue(u, depth, num).value.1); w != "" && (w[0] == '}' || w[0] == ',')
  {
    hide ParseMembers, ParseValue;
    MembersHead(s, depth, num, acc);
    pre := WsSplit(s);
    var t := SkipWs(s);
    assert t == "\"" + t[1..];
    key := StrOrigin(t[1..]);
    var afterKey := ParseStr(t[1..]).value.1;
    mid := WsSplit(afterKey);
    var v := SkipWs(afterKey);
    u := v[1..];
    assert v == ":" + u;
  }

  // -------------------------------------------------------------- whole texts

  /** A whole text is a value with white space around it. */
  lemma FromStrText(pre: string, c: Cst, post: string, num: Decoder)
    requires JsonWs(pre) && Loose(c) && JsonWs(post)
    ensures FromStr(pre + TextOf(c, post), num) ==
            if Strict(c, num) && Depth(c) <= MAX_DEPTH then Some(ValueOf(c, num)) else None
  {
    assert !StartsNum(post) by { assert post != "" ==> IsJsonWs(post[0]); }
    TextStart(c, post);
    ParseSkips(pre, TextOf(c, post), MAX_DEPTH, num);
    ParseText(c, post, MAX_DEPTH, num);
    SkipWsPrefix(post, "");
    assert post + "" == post;
  }

  /** RFC 8259 section 2: `s` is a value, as a strict tree within the depth limit, between runs of white space. */
  ghost predicate IsJsonText(s: string, num: Decoder, v: Value) {
    exists pre: string, c: Cst, post: string ::
      && JsonWs(pre) && JsonWs(post) && Loose(c) && Strict(c, num) && Depth(c) <= MAX_DEPTH
      && s == pre + TextOf(c, post) && v == ValueOf(c, num)
  }

  lemma FromStrIffJson(s: string, num: Decoder, v: Value)
    ensures FromStr(s, num) == Some(v) <==> IsJsonText(s, num, v)
  {
    if FromStr(s, num) == Some(v) {
      var pre, c := ParseOrigin(s, MAX_DEPTH, num);
      var rest := ParseValue(s, MAX_DEPTH, num).value.1;
      var post := WsSplit(rest);
      assert rest == post;
    }
    if IsJsonText(s, num, v) {
      var pre, c, post :|
        && JsonWs(pre) && JsonWs(post) && Loose(c) && Strict(c, num) && Depth(c) <= MAX_DEPTH
        && s == pre + TextOf(c, post) && v == ValueOf(c, num);
      FromStrText(pre, c, post, num);
    }
  }
}
