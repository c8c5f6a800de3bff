/** Splitting streamed text into words and the space between them (`split_tokens` in `inference.rs`). */
module Tokens {
  import opened Text

  function Flatten(tokens: seq<string>): string {
    if tokens == [] then "" else Flatten(tokens[..|tokens| - 1]) + tokens[|tokens| - 1]
  }

  /** All space or all word. */
  predicate Uniform(t: string, space: bool) { t != "" && forall i :: 0 <= i < |t| ==> IsSpace(t[i]) == space }

  predicate IsRun(t: string) { Uniform(t, true) || Uniform(t, false) }

  /** Runs that alternate between space and word. */
  predicate Chain(tokens: seq<string>) {
    && (forall i :: 0 <= i < |tokens| ==> IsRun(tokens[i]))
    && (forall i :: 0 < i < |tokens| ==> IsSpace(tokens[i - 1][0]) != IsSpace(tokens[i][0]))
  }

  /** The maximal runs of a text: non-empty, uniform, alternating, and nothing lost. */
  predicate Runs(tokens: seq<string>, text: string) { Flatten(tokens) == text && Chain(tokens) }

  /** Whether the next run may follow: the last one is of the other kind. */
  predicate Open(tokens: seq<string>, space: bool) {
    tokens != [] && tokens[|tokens| - 1] != "" ==> IsSpace(tokens[|tokens| - 1][0]) != space
  }

  lemma Pushed(out: seq<string>, text: string, start: nat, i: nat, space: bool)
    requires start < i <= |text| && Runs(out, text[..start]) && Open(out, space)
    requires forall k :: start <= k < i ==> IsSpace(text[k]) == space
    ensures Runs(out + [text[start..i]], text[..i]) && Open(out + [text[start..i]], !space)
  {
    hide IsSpace;
    var t := text[start..i];
    assert Uniform(t, space);
    FlattenSnoc(out, t);
    assert text[..start] + t == text[..i];
    var all := out + [t];
    forall k | 0 < k < |all| ensures IsSpace(all[k - 1][0]) != IsSpace(all[k][0]) {
      if k == |out| { assert IsRun(out[|out| - 1]); }
    }
  }

  method SplitTokens(text: string) returns (out: seq<string>)
    ensures Runs(out, text)
  {
    hide IsSpace, Runs, Open;
    out := [];
    var start := 0;
    var inSpace := text != "" && IsSpace(text[0]);
    NoRuns(text, inSpace);
    for i := 0 to |text|
      invariant 0 <= start <= i && Runs(out, text[..start]) && Open(out, inSpace)
      invariant forall k :: start <= k < i ==> IsSpace(text[k]) == inSpace
      invariant (start == i ==> i == 0) && (i == 0 ==> text == "" || inSpace == IsSpace(text[0]))
    {
      var isSpace := IsSpace(text[i]);
      if isSpace != inSpace {
        if i > start {
          Pushed(out, text, start, i, inSpace);
          out := out + [text[start..i]];
        }
        start := i;
        inSpace := isSpace;
      }
    }
    assert text[..|text|] == text;
    if start < |text| {
      Pushed(out, text, start, |text|, inSpace);
      assert text[start..|text|] == text[start..];
      out := out + [text[start..]];
    }
  }

  lemma NoRuns(text: string, space: bool)
    ensures Runs([], text[..0]) && Open([], space)
  {
  }

  lemma FlattenSnoc(tokens: seq<string>, t: string)
    ensures Flatten(tokens + [t]) == Flatten(tokens) + t
  {
    assert (tokens + [t])[..|tokens|] == tokens;
  }

  /** The runs of a text are unique, so the split is what the description says and nothing else. */
  lemma {:induction false} RunsUnique(a: seq<string>, b: seq<string>, text: string)
    requires Runs(a, text) && Runs(b, text)
    ensures a == b
    decreases |a|
  {
    hide Runs;
    NoneIffEmpty(a, text);
    NoneIffEmpty(b, text);
    if a != [] {
      SameLast(a, b, text);
      var n, m := |a| - 1, |b| - 1;
      AllButLast(a, text);
      AllButLast(b, text);
      RunsUnique(a[..n], b[..m], text[..|text| - |a[n]|]);
      assert a == a[..n] + [a[n]] && b == b[..m] + [b[m]];
    }
  }

  lemma NoneIffEmpty(a: seq<string>, text: string)
    requires Runs(a, text)
    ensures a == [] <==> text == ""
  {
    if a != [] { LastRun(a, text); }
  }

  lemma AllButLast(a: seq<string>, text: string)
    requires Runs(a, text) && a != []
    ensures |a[|a| - 1]| <= |text| && Runs(a[..|a| - 1], text[..|text| - |a[|a| - 1]|])
  {
    LastRun(a, text);
  }

  lemma LastRun(a: seq<string>, text: string)
    requires Runs(a, text) && a != []
    ensures var t := a[|a| - 1];
            && t != "" && |t| <= |text| && text[|text| - |t|..] == t && Flatten(a[..|a| - 1]) == text[..|text| - |t|]
            && (|t| < |text| ==> IsSpace(text[|text| - |t| - 1]) != IsSpace(t[0]))
            && forall i :: |text| - |t| <= i < |text| ==> IsSpace(text[i]) == IsSpace(t[0])
  {
    var n := |a| - 1;
    var t := a[n];
    assert IsRun(t);
    assert text == Flatten(a[..n]) + t;
    assert forall i :: |text| - |t| <= i < |text| ==> text[i] == t[i - (|text| - |t|)];
    if |t| < |text| {
      assert a[..n] != [];
      var u := a[n - 1];
      assert IsRun(u) && Flatten(a[..n]) == Flatten(a[..n][..n - 1]) + u;
      assert text[|text| - |t| - 1] == u[|u| - 1];
      assert IsSpace(u[0]) != IsSpace(t[0]);
    }
  }

  lemma SameLast(a: seq<string>, b: seq<string>, text: string)
    requires Runs(a, text) && Runs(b, text) && a != [] && b != []
    ensures a[|a| - 1] == b[|b| - 1]
  {
    LastRun(a, text);
    LastRun(b, text);
    var t, u := a[|a| - 1], b[|b| - 1];
    assert text[|text| - 1] == t[|t| - 1] == u[|u| - 1];
    assert IsSpace(text[|text| - 1]) == IsSpace(t[0]) == IsSpace(u[0]);
    Longer(text, |t|, |u|, IsSpace(t[0]));
    Longer(text, |u|, |t|, IsSpace(t[0]));
  }

  lemma Longer(text: string, m: nat, n: nat, space: bool)
    requires 0 < m <= |text| && 0 < n <= |text|
    requires m < |text| ==> IsSpace(text[|text| - m - 1]) != space
    requires forall i :: |text| - n <= i < |text| ==> IsSpace(text[i]) == space
    ensures n <= m
  {
  }
}
