/** The formats a manifest's strings must have (`manifest.rs`), as grammars rather than as tests. */
module ManifestFormats {
  import opened Text
  import opened Json
  import opened ManifestSchema

  // ------------------------------------------------------------- parts between separators

  /** No separator at either end, no two in a row, and only allowed characters between. */
  predicate Separated(s: string, sep: char, ok: char -> bool) {
    && s != "" && s[0] != sep && s[|s| - 1] != sep
    && (forall i :: 0 <= i < |s| - 1 ==> s[i] != sep || s[i + 1] != sep)
    && (forall i :: 0 <= i < |s| ==> s[i] == sep || ok(s[i]))
  }

  predicate Filled(part: string, ok: char -> bool) { part != "" && forall i :: 0 <= i < |part| ==> ok(part[i]) }

  predicate AllFilled(parts: seq<string>, ok: char -> bool) {
    forall i :: 0 <= i < |parts| ==> Filled(parts[i], ok)
  }

  lemma FilledCons(c: char, part: string, ok: char -> bool)
    ensures Filled([c] + part, ok) <==> ok(c) && (part == "" || Filled(part, ok))
  {
    var whole := [c] + part;
    assert whole[0] == c;
    if Filled(whole, ok) {
      forall i | 0 <= i < |part| ensures ok(part[i]) { assert ok(whole[i + 1]); }
    }
  }

  lemma AllFilledCons(first: string, rest: seq<string>, ok: char -> bool)
    ensures AllFilled([first] + rest, ok) <==> Filled(first, ok) && AllFilled(rest, ok)
  {
    hide Filled;
    var all := [first] + rest;
    assert all[0] == first;
    if AllFilled(all, ok) {
      forall i | 0 <= i < |rest| ensures Filled(rest[i], ok) { assert Filled(all[i + 1], ok); }
    }
  }

  /** The parts between separators are all non-empty and made of allowed characters exactly so. */
  lemma {:induction false} PartsIff(s: string, sep: char, ok: char -> bool)
    requires !ok(sep)
    ensures AllFilled(Split(s, sep), ok) <==> Separated(s, sep, ok)
  {
    hide Filled, AllFilled, Separated;
    if s == "" {
      NoPart(sep, ok);
    } else if s[0] == sep {
      AllFilledCons("", Split(s[1..], sep), ok);
      NoLead(s, sep, ok);
    } else if |s| == 1 {
      assert Split(s, sep) == [s] by { SplitPlain(s, sep); }
      OnePart(s, sep, ok);
    } else {
      var t := s[1..];
      var rest := Split(t, sep);
      FilledCons(s[0], rest[0], ok);
      AllFilledCons([s[0]] + rest[0], rest[1..], ok);
      SeparatedCons(s, sep, ok);
      if t[0] == sep {
        PartsIff(t[1..], sep, ok);
        assert rest == [""] + Split(t[1..], sep);
        assert rest[1..] == Split(t[1..], sep);
      } else {
        PartsIff(t, sep, ok);
        assert rest[0] != "";
        AllFilledCons(rest[0], rest[1..], ok);
        assert rest == [rest[0]] + rest[1..];
      }
    }
  }

  lemma NoPart(sep: char, ok: char -> bool)
    ensures !AllFilled(Split("", sep), ok) && !Separated("", sep, ok)
  {
    assert Split("", sep)[0] == "";
    assert !Filled("", ok);
  }

  lemma NoLead(s: string, sep: char, ok: char -> bool)
    requires s != "" && s[0] == sep
    ensures !Separated(s, sep, ok) && !Filled("", ok)
  {
  }

  lemma OnePart(s: string, sep: char, ok: char -> bool)
    requires |s| == 1 && s[0] != sep
    ensures AllFilled([s], ok) <==> Separated(s, sep, ok)
  {
    assert Filled(s, ok) <==> ok(s[0]);
    assert AllFilled([s], ok) <==> Filled(s, ok) by {
      AllFilledCons(s, [], ok);
      assert [s] + [] == [s];
    }
  }

  lemma SeparatedCons(s: string, sep: char, ok: char -> bool)
    requires |s| > 1 && s[0] != sep && !ok(sep)
    ensures Separated(s, sep, ok) <==>
            ok(s[0]) && if s[1] == sep then Separated(s[2..], sep, ok) else Separated(s[1..], sep, ok)
  {
    var n := if s[1] == sep then 2 else 1;
    var t := s[n..];
    assert forall i :: 0 <= i < |t| ==> t[i] == s[i + n];
    if Separated(s, sep, ok) {
      assert s[1] == sep ==> |s| > 2 && s[2] != sep;
      forall i | 0 <= i < |t| - 1 ensures t[i] != sep || t[i + 1] != sep {
        assert s[i + n] != sep || s[i + n + 1] != sep;
      }
    }
    if ok(s[0]) && Separated(t, sep, ok) {
      forall i | 0 <= i < |s| - 1 ensures s[i] != sep || s[i + 1] != sep {
        if i >= n { assert t[i - n] != sep || t[i - n + 1] != sep; }
      }
      forall i | 0 <= i < |s| ensures s[i] == sep || ok(s[i]) {
        if i >= n { assert t[i - n] == sep || ok(t[i - n]); }
      }
      assert s[|s| - 1] == t[|t| - 1];
    }
  }

  function Count(s: string, c: char): nat {
    if s == "" then 0 else (if s[0] == c then 1 else 0) + Count(s[1..], c)
  }

  lemma {:induction false} PartCount(s: string, sep: char)
    ensures |Split(s, sep)| == Count(s, sep) + 1
  {
    if s != "" { PartCount(s[1..], sep); }
  }

  // ------------------------------------------------------------------ the formats

  function SlugChar(): char -> bool { c => IsLower(c) || IsDigit(c) }
  function PathChar(): char -> bool { c => IsAlnum(c) || c == '_' || c == '-' }
  function DigitOnly(): char -> bool { c => IsDigit(c) }

  lemma SlugsAre(parts: seq<string>)
    ensures (forall part :: part in parts ==> IsSlug(part)) <==> AllFilled(parts, SlugChar())
  {
    forall part ensures IsSlug(part) <==> Filled(part, SlugChar()) {}
    if forall part :: part in parts ==> IsSlug(part) {
      forall i | 0 <= i < |parts| ensures Filled(parts[i], SlugChar()) { assert parts[i] in parts; }
    }
  }

  /** A skill id: 2 to 64 lower-case letters, digits and single inner dashes. */
  lemma SkillIdIff(s: string)
    ensures IsSkillId(s) <==> 2 <= |s| <= 64 && Separated(s, '-', SlugChar())
  {
    hide Separated;
    SlugsAre(Split(s, '-'));
    PartsIff(s, '-', SlugChar());
  }

  lemma PathsAre(parts: seq<string>)
    ensures (forall part :: part in parts ==> IsPathPart(part)) <==> AllFilled(parts, PathChar())
  {
    forall part ensures IsPathPart(part) <==> Filled(part, PathChar()) {}
    if forall part :: part in parts ==> IsPathPart(part) {
      forall i | 0 <= i < |parts| ensures Filled(parts[i], PathChar()) { assert parts[i] in parts; }
    }
  }

  /** An asset path: at most 128 characters, names between single inner slashes, and the extension. */
  lemma AssetPathIff(s: string)
    ensures IsSvgAssetPath(s) <==>
            |s| <= 128 && exists stem: string :: s == stem + ".svg" && Separated(stem, '/', PathChar())
  {
    hide Separated;
    if |s| > 4 {
      var stem := s[..|s| - 4];
      PathsAre(Split(stem, '/'));
      PartsIff(stem, '/', PathChar());
      if EndsWith(s, ".svg") { assert s == stem + ".svg"; }
    }
    if stem: string :| s == stem + ".svg" && Separated(stem, '/', PathChar()) {
      StemNotEmpty(stem);
      assert s[..|s| - 4] == stem && s[|s| - 4..] == ".svg";
    }
  }

  lemma StemNotEmpty(stem: string)
    requires Separated(stem, '/', PathChar())
    ensures stem != ""
  {
  }

  /** A widget version: two or three numbers between dots. */
  lemma WidgetVersionIff(s: string)
    ensures IsWidgetVersion(s) <==> 1 <= Count(s, '.') <= 2 && Separated(s, '.', DigitOnly())
  {
    hide Separated;
    var parts := Split(s, '.');
    PartCount(s, '.');
    PartsIff(s, '.', DigitOnly());
    forall part ensures (part != "" && AllDigits(part)) <==> Filled(part, DigitOnly()) {}
  }

  // -------------------------------------------------------------- semantic versions

  /** `major.minor.patch`, then `-` and a pre-release tag if any, then `+` and build data if any. */
  function Version(a: string, b: string, c: string, pre: Option<string>, build: Option<string>): string {
    a + "." + b + "." + c + Tagged('-', pre) + Tagged('+', build)
  }

  function Tagged(mark: char, tag: Option<string>): string { if tag.Some? then [mark] + tag.value else "" }

  ghost predicate VersionParts(a: string, b: string, c: string, pre: Option<string>, build: Option<string>) {
    && IsNumId(a) && IsNumId(b) && IsNumId(c)
    && (pre.Some? ==> IsDotDashAlnum(pre.value)) && (build.Some? ==> IsDotDashAlnum(build.value))
  }

  lemma SplitOnceShape(s: string, sep: char)
    ensures match SplitOnce(s, sep)
            case None => sep !in s
            case Some(p) => s == p.0 + [sep] + p.1 && sep !in p.0
  {
    FindIsFirst(s, [sep]);
    var r := Find(s, [sep]);
    var n := if r.Some? then r.value else |s|;
    forall i | 0 <= i < n ensures s[i] != sep {
      assert s[i..i + 1] == [s[i]];
      assert !OccursAt(s, [sep], i);
    }
    if r.Some? { assert s[n] == s[n..n + 1][0] == sep; }
  }

  lemma SplitOnceAt(before: string, sep: char, after: string)
    requires sep !in before
    ensures SplitOnce(before + [sep] + after, sep) == Some((before, after))
  {
    var s := before + [sep] + after;
    assert s[|before|..|before| + 1] == [sep];
    forall j: nat | j < |before| ensures !OccursAt(s, [sep], j) {
      assert s[j..j + 1][0] == before[j] && before[j] in before;
    }
    FoundAt(s, [sep], |before|);
    assert s[..|before|] == before && s[|before| + 1..] == after;
  }

  lemma SplitOnceNone(s: string, sep: char)
    requires sep !in s
    ensures SplitOnce(s, sep) == None
  {
    SplitOnceShape(s, sep);
    FindIsFirst(s, [sep]);
  }

  lemma CoreIff(s: string, a: string, b: string, c: string)
    requires '.' !in a && '.' !in b && '.' !in c
    ensures s == a + "." + b + "." + c ==> Split(s, '.') == [a, b, c]
  {
    SplitPlain(c, '.');
    SplitLeading(b, c, '.');
    SplitLeading(a, b + "." + c, '.');
    assert a + "." + b + "." + c == a + ['.'] + (b + "." + c);
  }

  lemma CoreParts(s: string) returns (a: string, b: string, c: string)
    requires IsCore(s)
    ensures s == a + "." + b + "." + c && IsNumId(a) && IsNumId(b) && IsNumId(c)
  {
    var p := Split(s, '.');
    SplitJoins(s, '.');
    a, b, c := p[0], p[1], p[2];
    assert p[1..][1..] == [c] && p[1..][0] == b;
    assert Joined(p[1..], '.') == b + ['.'] + c;
    assert s == a + ['.'] + (b + ['.'] + c);
  }

  lemma NumPlain(s: string)
    requires IsNumId(s)
    ensures '.' !in s && '-' !in s && '+' !in s
  {
  }

  lemma TagPlain(s: string)
    requires IsDotDashAlnum(s)
    ensures '+' !in s
  {
  }

  /** A version is accepted exactly when it is written so. */
  lemma SemverIff(s: string)
    ensures IsSemver(s) <==>
            exists a, b, c, pre, build :: VersionParts(a, b, c, pre, build) && s == Version(a, b, c, pre, build)
  {
    hide IsNumId, IsDotDashAlnum, Split;
    if IsSemver(s) { var a, b, c, pre, build := VersionRead(s); }
    if a, b, c, pre, build :| VersionParts(a, b, c, pre, build) && s == Version(a, b, c, pre, build) {
      VersionAccepted(a, b, c, pre, build);
    }
  }

  lemma VersionRead(s: string) returns (a: string, b: string, c: string, pre: Option<string>, build: Option<string>)
    requires IsSemver(s)
    ensures VersionParts(a, b, c, pre, build) && s == Version(a, b, c, pre, build)
  {
    hide IsNumId, IsDotDashAlnum, IsCore, SplitOnce;
    var plus := SplitOnce(s, '+');
    SplitOnceShape(s, '+');
    var rest := if plus.Some? then plus.value.0 else s;
    build := if plus.Some? then Some(plus.value.1) else None;
    var dash := SplitOnce(rest, '-');
    SplitOnceShape(rest, '-');
    var core := if dash.Some? then dash.value.0 else rest;
    pre := if dash.Some? then Some(dash.value.1) else None;
    a, b, c := CoreParts(core);
    assert rest == core + Tagged('-', pre);
    assert s == rest + Tagged('+', build);
  }

  lemma VersionAccepted(a: string, b: string, c: string, pre: Option<string>, build: Option<string>)
    requires VersionParts(a, b, c, pre, build)
    ensures IsSemver(Version(a, b, c, pre, build))
  {
    hide IsNumId, IsDotDashAlnum, SplitOnce, Split;
    var core := a + "." + b + "." + c;
    NumPlain(a);
    NumPlain(b);
    NumPlain(c);
    CoreIff(core, a, b, c);
    CorePlain(a, b, c);
    var rest := core + Tagged('-', pre);
    var s := rest + Tagged('+', build);
    if pre.Some? {
      TagPlain(pre.value);
      SplitOnceAt(core, '-', pre.value);
      assert rest == core + ['-'] + pre.value;
    } else {
      SplitOnceNone(core, '-');
      assert rest == core;
    }
    assert '+' !in rest;
    if build.Some? {
      SplitOnceAt(rest, '+', build.value);
      assert s == rest + ['+'] + build.value;
    } else {
      SplitOnceNone(rest, '+');
      assert s == rest;
    }
    assert s == Version(a, b, c, pre, build);
  }

  lemma CorePlain(a: string, b: string, c: string)
    requires IsNumId(a) && IsNumId(b) && IsNumId(c)
    ensures var core := a + "." + b + "." + c; '-' !in core && '+' !in core
  {
    NumPlain(a);
    NumPlain(b);
    NumPlain(c);
    hide IsNumId;
  }
}
