/** The text operations the client's Rust code takes from the standard library
    (`find`, `starts_with`, `trim`), over strings of Unicode scalar values. */
module Text {

  type Byte = b: int | 0 <= b < 256
  type Bytes = seq<Byte>

  datatype Option<+T> = None | Some(value: T) {
    predicate IsFailure() { None? }

    function PropagateFailure<U>(): Option<U>
      requires None?
    {
      None
    }

    function Extract(): T
      requires Some?
    {
      value
    }
  }

  /** The Unicode White_Space property, which Rust's `char::is_whitespace` follows. */
  predicate IsSpace(c: char) {
    || ('\t' <= c <= '\r') || c == ' '
    || c == '\U{0085}' || c == '\U{00A0}' || c == '\U{1680}'
    || ('\U{2000}' <= c <= '\U{200A}')
    || c == '\U{2028}' || c == '\U{2029}' || c == '\U{202F}' || c == '\U{205F}' || c == '\U{3000}'
  }

  predicate AllSpace(s: string) {
    forall i :: 0 <= i < |s| ==> IsSpace(s[i])
  }

  predicate IsDigit(c: char) { '0' <= c <= '9' }

  /** `is_ident_byte`: ASCII alphanumeric or underscore. */
  predicate IsIdentChar(c: char) {
    ('a' <= c <= 'z') || ('A' <= c <= 'Z') || IsDigit(c) || c == '_'
  }

  predicate IsIdent(s: string) {
    s != "" && forall i :: 0 <= i < |s| ==> IsIdentChar(s[i])
  }

  function TrimStart(s: string): (r: string)
    ensures |r| <= |s|
    ensures r != "" ==> !IsSpace(r[0])
  {
    if s != "" && IsSpace(s[0]) then TrimStart(s[1..]) else s
  }

  function TrimEnd(s: string): (r: string)
    ensures r <= s
    ensures r != "" ==> !IsSpace(r[|r| - 1])
  {
    if s != "" && IsSpace(s[|s| - 1]) then TrimEnd(s[..|s| - 1]) else s
  }

  function Trim(s: string): string { TrimEnd(TrimStart(s)) }

  /** A string with a non-space at both ends; `Trim` leaves exactly these unchanged. */
  predicate Trimmed(s: string) {
    s == "" || (!IsSpace(s[0]) && !IsSpace(s[|s| - 1]))
  }

  lemma {:induction false} TrimStartSkips(pre: string, rest: string)
    requires AllSpace(pre) && (rest == "" || !IsSpace(rest[0]))
    ensures TrimStart(pre + rest) == rest
  {
    if pre == "" {
      assert pre + rest == rest;
    } else {
      assert IsSpace(pre[0]);
      assert (pre + rest)[1..] == pre[1..] + rest;
      TrimStartSkips(pre[1..], rest);
    }
  }

  lemma {:induction false} TrimEndSkips(rest: string, post: string)
    requires AllSpace(post) && (rest == "" || !IsSpace(rest[|rest| - 1]))
    ensures TrimEnd(rest + post) == rest
  {
    if post == "" {
      assert rest + post == rest;
    } else {
      assert IsSpace(post[|post| - 1]);
      assert (rest + post)[..|rest + post| - 1] == rest + post[..|post| - 1];
      TrimEndSkips(rest, post[..|post| - 1]);
    }
  }

  /** Trimming is determined by its result: the one trimmed core between two runs of space. */
  lemma TrimCore(pre: string, core: string, post: string)
    requires AllSpace(pre) && Trimmed(core) && AllSpace(post)
    ensures Trim(pre + core + post) == core
  {
    if core == "" {
      TrimStartSkips(pre + post, "");
      assert pre + core + post == pre + post + "";
    } else {
      TrimStartSkips(pre, core + post);
      assert pre + core + post == pre + (core + post);
      TrimEndSkips(core, post);
    }
  }

  lemma TrimmedIsTrimmed(s: string)
    ensures Trimmed(Trim(s))
  {
    var a := TrimStart(s);
    var b := TrimEnd(a);
    if b != "" { assert b[0] == a[0]; }
  }

  lemma {:induction false} TrimStartShape(s: string)
    ensures var n := |s| - |TrimStart(s)|; s[n..] == TrimStart(s) && AllSpace(s[..n])
  {
    if s != "" && IsSpace(s[0]) { TrimStartShape(s[1..]); }
  }

  lemma {:induction false} TrimEndShape(s: string)
    ensures var n := |TrimEnd(s)|; s[..n] == TrimEnd(s) && AllSpace(s[n..])
  {
    if s != "" && IsSpace(s[|s| - 1]) { TrimEndShape(s[..|s| - 1]); }
  }

  lemma BlankIff(s: string)
    ensures Trim(s) == "" <==> AllSpace(s)
  {
    TrimStartShape(s);
    TrimEndShape(TrimStart(s));
    if AllSpace(s) {
      TrimStartSkips(s, "");
      assert s + "" == s;
    }
  }

  lemma TrimParts(x: string) returns (p: string, q: string)
    ensures x == p + Trim(x) + q && AllSpace(p) && AllSpace(q)
  {
    TrimStartShape(x);
    TrimEndShape(TrimStart(x));
    var n, m := |x| - |TrimStart(x)|, |Trim(x)|;
    p, q := x[..n], TrimStart(x)[m..];
    assert TrimStart(x) == Trim(x) + q && x == p + TrimStart(x);
    assert p + (Trim(x) + q) == p + Trim(x) + q;
  }

  predicate OccursAt(s: string, pat: string, i: nat) {
    i + |pat| <= |s| && s[i..i + |pat|] == pat
  }

  ghost predicate Contains(s: string, pat: string) {
    exists i: nat :: OccursAt(s, pat, i)
  }

  function FindFrom(s: string, pat: string, from: nat): (r: Option<nat>)
    ensures r.Some? ==> from <= r.value && r.value + |pat| <= |s|
    decreases |s| - from
  {
    if from + |pat| > |s| then None
    else if OccursAt(s, pat, from) then Some(from)
    else FindFrom(s, pat, from + 1)
  }

  /** Rust's `str::find` for a string pattern: the first occurrence. */
  function Find(s: string, pat: string): (r: Option<nat>)
    ensures r.Some? ==> r.value + |pat| <= |s|
  {
    FindFrom(s, pat, 0)
  }

  lemma {:induction false} FindFromIsFirst(s: string, pat: string, from: nat)
    ensures var r := FindFrom(s, pat, from);
            && (r.Some? ==> OccursAt(s, pat, r.value))
            && forall j: nat :: from <= j && (r.Some? ==> j < r.value) ==> !OccursAt(s, pat, j)
    decreases |s| - from
  {
    if from + |pat| <= |s| && !OccursAt(s, pat, from) { FindFromIsFirst(s, pat, from + 1); }
  }

  /** `Find` answers the first occurrence, and `None` exactly when there is none. */
  lemma FindIsFirst(s: string, pat: string)
    ensures var r := Find(s, pat);
            && (r.Some? ==> OccursAt(s, pat, r.value))
            && (forall j: nat :: (r.Some? ==> j < r.value) ==> !OccursAt(s, pat, j))
            && (r.Some? <==> Contains(s, pat))
  {
    FindFromIsFirst(s, pat, 0);
  }

  lemma FoundAt(s: string, pat: string, i: nat)
    requires OccursAt(s, pat, i) && forall j: nat :: j < i ==> !OccursAt(s, pat, j)
    ensures Find(s, pat) == Some(i)
  {
    FindIsFirst(s, pat);
  }

  predicate StartsWith(s: string, pat: string) { OccursAt(s, pat, 0) }

  // --------------------------------------------------------------------- splitting

  /** `str::split` on one character. */
  function Split(s: string, sep: char): (parts: seq<string>)
    ensures parts != []
  {
    if s == "" then [""]
    else
      var rest := Split(s[1..], sep);
      if s[0] == sep then [""] + rest else [[s[0]] + rest[0]] + rest[1..]
  }

  lemma {:induction false} SplitPlain(s: string, sep: char)
    requires sep !in s
    ensures Split(s, sep) == [s]
  {
    if s != "" {
      SplitPlain(s[1..], sep);
      assert [s[0]] + s[1..] == s;
    }
  }

  lemma {:induction false} SplitLeading(a: string, b: string, sep: char)
    requires sep !in a
    ensures Split(a + [sep] + b, sep) == [a] + Split(b, sep)
  {
    var s := a + [sep] + b;
    if a == "" {
      assert s[1..] == b;
    } else {
      SplitLeading(a[1..], b, sep);
      assert s[1..] == a[1..] + [sep] + b;
      assert [a[0]] + a[1..] == a;
      assert ([a[1..]] + Split(b, sep))[1..] == Split(b, sep);
    }
  }

  /** Every character of `s` is a separator or inside a part. */
  lemma {:induction false} SplitCovers(s: string, sep: char, i: nat)
    requires i < |s| && s[i] != sep
    ensures exists k :: 0 <= k < |Split(s, sep)| && s[i] in Split(s, sep)[k]
  {
    var parts, rest := Split(s, sep), Split(s[1..], sep);
    if i == 0 {
      assert s[0] in parts[0];
    } else {
      SplitCovers(s[1..], sep, i - 1);
      var k :| 0 <= k < |rest| && s[i] in rest[k];
      assert s[i] in parts[if s[0] == sep then k + 1 else k];
    }
  }

  function Joined(parts: seq<string>, sep: char): string
    requires parts != []
  {
    if |parts| == 1 then parts[0] else parts[0] + [sep] + Joined(parts[1..], sep)
  }

  /** Splitting loses nothing, and no part holds the separator. */
  lemma {:induction false} SplitJoins(s: string, sep: char)
    ensures Joined(Split(s, sep), sep) == s && forall part :: part in Split(s, sep) ==> sep !in part
  {
    if s != "" {
      SplitJoins(s[1..], sep);
      var rest := Split(s[1..], sep);
      var parts := Split(s, sep);
      if s[0] == sep {
        assert parts[1..] == rest;
      } else {
        assert parts[1..] == rest[1..] && parts[0] == [s[0]] + rest[0];
        assert forall part :: part in rest[1..] ==> part in rest;
      }
      assert s == [s[0]] + s[1..];
    }
  }
}
