/** The deterministic allergen layer (`allergen.py`): whole-word search, and scanning a list of names
    joined by newlines. */
module Allergen {
  import opened Text

  predicate IsWordChar(c: char) { ('a' <= c <= 'z') || ('A' <= c <= 'Z') || IsDigit(c) }

  // --------------------------------------------------------------------- the search

  /** The needle stands at `i` with no word character on either side. */
  predicate WordAt(hay: string, needle: string, i: nat) {
    && OccursAt(hay, needle, i)
    && (i > 0 ==> !IsWordChar(hay[i - 1]))
    && (i + |needle| < |hay| ==> !IsWordChar(hay[i + |needle|]))
  }

  ghost predicate HasWord(hay: string, needle: string) { needle != "" && exists i: nat :: WordAt(hay, needle, i) }

  /** Exact: true if and only if some occurrence, overlapping ones included, stands alone. */
  method ContainsWord(hay: string, needle: string) returns (found: bool)
    ensures found <==> HasWord(hay, needle)
  {
    if needle == "" { return false; }
    var start: nat := 0;
    while true
      invariant start <= |hay|
      invariant forall i: nat :: i < start ==> !WordAt(hay, needle, i)
      decreases |hay| - start
    {
      FindFromIsFirst(hay, needle, start);
      match FindFrom(hay, needle, start) {
        case None => return false;
        case Some(i) =>
          var j := i + |needle|;
          var leftOk := i == 0 || !IsWordChar(hay[i - 1]);
          var rightOk := j == |hay| || !IsWordChar(hay[j]);
          if leftOk && rightOk {
            assert WordAt(hay, needle, i);
            return true;
          }
          start := i + 1;
      }
    }
  }

  // ----------------------------------------------------------------------- the scan

  datatype Entry = Entry(display: string, terms: seq<string>)
  datatype Database = Database(big9: seq<string>, allergens: map<string, Entry>)
  datatype Flag = Flag(allergen: string, display: string, matchedTerm: string)

  /** `str.lower`, whose Unicode tables are not part of this model. */
  type Lowering = string -> string

  /** What matters of it here: it works on either side of a newline alone, and makes no newline. */
  ghost predicate KeepsLines(lower: Lowering) {
    && (forall a, b :: lower(a + "\n" + b) == lower(a) + "\n" + lower(b))
    && (forall s :: '\n' !in s ==> '\n' !in lower(s))
    && lower("") == ""
  }

  function AsciiChar(c: char): char { if 'A' <= c <= 'Z' then c - 'A' + 'a' else c }

  /** On ASCII text, `str.lower` is this. */
  function AsciiLower(s: string): string { seq(|s|, (i: nat) requires i < |s| => AsciiChar(s[i])) }

  /** So the requirement can be met. */
  lemma AsciiKeepsLines()
    ensures KeepsLines(AsciiLower)
  {
    forall a, b ensures AsciiLower(a + "\n" + b) == AsciiLower(a) + "\n" + AsciiLower(b) {}
  }

  /** The first of the terms that the lowered text contains as a word. */
  ghost function FirstTerm(lower: Lowering, folded: string, terms: seq<string>): Option<string> {
    if terms == [] then None
    else if HasWord(folded, lower(terms[0])) then Some(lower(terms[0]))
    else FirstTerm(lower, folded, terms[1..])
  }

  ghost function FlagFor(lower: Lowering, db: Database, folded: string, key: string): seq<Flag> {
    if key !in db.allergens then []
    else
      match FirstTerm(lower, folded, db.allergens[key].terms)
      case None => []
      case Some(t) => [Flag(key, db.allergens[key].display, t)]
  }

  /** At most one flag per allergen, in the database's order. */
  ghost function Flags(lower: Lowering, db: Database, folded: string, keys: seq<string>): seq<Flag> {
    if keys == [] then [] else FlagFor(lower, db, folded, keys[0]) + Flags(lower, db, folded, keys[1..])
  }

  /** The inner loop: the terms of one allergen, up to the first that fires. */
  method FirstHit(lower: Lowering, folded: string, terms: seq<string>) returns (hit: Option<string>)
    ensures hit == FirstTerm(lower, folded, terms)
  {
    hide HasWord;
    for t := 0 to |terms|
      invariant FirstTerm(lower, folded, terms) == FirstTerm(lower, folded, terms[t..])
    {
      assert terms[t..][1..] == terms[t + 1..];
      var fires := ContainsWord(folded, lower(terms[t]));
      if fires { return Some(lower(terms[t])); }
    }
    return None;
  }

  method ScanOne(lower: Lowering, db: Database, folded: string, key: string) returns (flags: seq<Flag>)
    ensures flags == FlagFor(lower, db, folded, key)
  {
    hide FirstTerm;
    if key !in db.allergens { return []; }
    var entry := db.allergens[key];
    var hit := FirstHit(lower, folded, entry.terms);
    match hit {
      case None => return [];
      case Some(t) => return [Flag(key, entry.display, t)];
    }
  }

  method Scan(lower: Lowering, db: Database, text: string) returns (flags: seq<Flag>)
    ensures flags == Flags(lower, db, lower(text), db.big9)
  {
    hide FlagFor;
    var folded := lower(text);
    flags := [];
    for k := 0 to |db.big9|
      invariant flags + Flags(lower, db, folded, db.big9[k..]) == Flags(lower, db, folded, db.big9)
    {
      assert db.big9[k..][1..] == db.big9[k + 1..];
      var found := ScanOne(lower, db, folded, db.big9[k]);
      Regroup(flags, found, Flags(lower, db, folded, db.big9[k + 1..]));
      flags := flags + found;
    }
  }

  lemma Regroup(a: seq<Flag>, b: seq<Flag>, c: seq<Flag>)
    ensures a + (b + c) == a + b + c
  {
  }

  /** `"\n".join`. */
  function Lines(names: seq<string>): string {
    if names == [] then "" else if |names| == 1 then names[0] else names[0] + "\n" + Lines(names[1..])
  }

  // ------------------------------------------------------------- what a flag means

  /** The allergen is listed, and one of its terms is a word of the text. */
  ghost predicate Flagged(lower: Lowering, db: Database, text: string, key: string) {
    key in db.big9 && key in db.allergens
    && exists t :: t in db.allergens[key].terms && HasWord(lower(text), lower(t))
  }

  lemma {:induction false} FirstTermFires(lower: Lowering, folded: string, terms: seq<string>)
    ensures FirstTerm(lower, folded, terms).Some? <==> exists t :: t in terms && HasWord(folded, lower(t))
  {
    if terms != [] {
      FirstTermFires(lower, folded, terms[1..]);
      assert forall t :: t in terms <==> t == terms[0] || t in terms[1..];
    }
  }

  lemma {:induction false} FlagsAre(lower: Lowering, db: Database, text: string, keys: seq<string>, key: string)
    ensures (exists f :: f in Flags(lower, db, lower(text), keys) && f.allergen == key) <==>
            && key in keys && key in db.allergens
            && exists t :: t in db.allergens[key].terms && HasWord(lower(text), lower(t))
  {
    if keys != [] {
      var folded, first := lower(text), FlagFor(lower, db, lower(text), keys[0]);
      FlagsAre(lower, db, text, keys[1..], key);
      if keys[0] in db.allergens { FirstTermFires(lower, folded, db.allergens[keys[0]].terms); }
      var later := Flags(lower, db, folded, keys[1..]);
      assert forall f :: f in Flags(lower, db, folded, keys) <==> f in first || f in later;
      assert (exists f :: f in first && f.allergen == key) <==> first != [] && keys[0] == key by {
        if first != [] { assert first[0] in first; }
      }
    }
  }

  /** The first of the allergen's terms that is a word of the text. */
  ghost predicate FiresFirst(lower: Lowering, text: string, terms: seq<string>, k: nat) {
    && k < |terms| && HasWord(lower(text), lower(terms[k]))
    && forall j :: 0 <= j < k ==> !HasWord(lower(text), lower(terms[j]))
  }

  /** A flag names its allergen, the allergen's display name, and the lowered term that fired first. */
  ghost predicate FlagTells(lower: Lowering, db: Database, text: string, f: Flag) {
    && f.allergen in db.allergens && f.display == db.allergens[f.allergen].display
    && exists k: nat :: FiresFirst(lower, text, db.allergens[f.allergen].terms, k)
                        && f.matchedTerm == lower(db.allergens[f.allergen].terms[k])
  }

  lemma {:induction false} FirstTermIs(lower: Lowering, text: string, terms: seq<string>) returns (k: nat)
    requires FirstTerm(lower, lower(text), terms).Some?
    ensures FiresFirst(lower, text, terms, k) && FirstTerm(lower, lower(text), terms) == Some(lower(terms[k]))
  {
    hide HasWord;
    if HasWord(lower(text), lower(terms[0])) {
      k := 0;
    } else {
      k := FirstTermIs(lower, text, terms[1..]);
      assert forall j :: 0 < j < |terms| ==> terms[j] == terms[1..][j - 1];
      k := k + 1;
    }
  }

  /** The keys of the allergens to be flagged, in the order of the list. */
  ghost function FlaggedKeys(lower: Lowering, db: Database, text: string, keys: seq<string>): seq<string> {
    if keys == [] then []
    else
      (if keys[0] in db.allergens && exists t :: t in db.allergens[keys[0]].terms && HasWord(lower(text), lower(t))
       then [keys[0]] else [])
      + FlaggedKeys(lower, db, text, keys[1..])
  }

  function KeysOf(flags: seq<Flag>): seq<string> {
    seq(|flags|, (i: nat) requires i < |flags| => flags[i].allergen)
  }

  lemma {:induction false} FlagsExact(lower: Lowering, db: Database, text: string, keys: seq<string>)
    ensures KeysOf(Flags(lower, db, lower(text), keys)) == FlaggedKeys(lower, db, text, keys)
    ensures forall f :: f in Flags(lower, db, lower(text), keys) ==> FlagTells(lower, db, text, f)
  {
    hide HasWord, FlagTells, FiresFirst;
    if keys != [] {
      var key, first := keys[0], FlagFor(lower, db, lower(text), keys[0]);
      var rest := Flags(lower, db, lower(text), keys[1..]);
      FlagsExact(lower, db, text, keys[1..]);
      if key in db.allergens {
        FirstTermFires(lower, lower(text), db.allergens[key].terms);
        if first != [] { FlagForTells(lower, db, text, key); }
      }
      assert KeysOf(first + rest) == KeysOf(first) + KeysOf(rest);
      assert first == [] || KeysOf(first) == [key];
    }
  }

  lemma FlagForTells(lower: Lowering, db: Database, text: string, key: string)
    requires FlagFor(lower, db, lower(text), key) != []
    ensures var first := FlagFor(lower, db, lower(text), key);
            |first| == 1 && first[0].allergen == key && FlagTells(lower, db, text, first[0])
  {
    hide FiresFirst, FirstTerm;
    var k := FirstTermIs(lower, text, db.allergens[key].terms);
    FiresWithin(lower, text, db.allergens[key].terms, k);
  }

  lemma FiresWithin(lower: Lowering, text: string, terms: seq<string>, k: nat)
    requires FiresFirst(lower, text, terms, k)
    ensures k < |terms|
  {
  }

  // --------------------------------------------------------------- joining is safe

  lemma WordWithin(hay: string, a: string, sep: string, b: string, t: string, i: nat)
    requires hay == a + sep + b && |sep| == 1 && sep[0] !in t && t != "" && WordAt(hay, t, i)
    ensures (i + |t| <= |a| && WordAt(a, t, i)) || (i > |a| && WordAt(b, t, i - |a| - 1))
  {
    if i <= |a| < i + |t| {
      Straddles(hay, t, i, |a|);
    } else if i + |t| <= |a| {
      assert a[i..i + |t|] == hay[i..i + |t|];
    } else {
      assert b[i - |a| - 1..i - |a| - 1 + |t|] == hay[i..i + |t|];
    }
  }

  lemma Straddles(hay: string, t: string, i: nat, p: nat)
    requires OccursAt(hay, t, i) && i <= p < i + |t|
    ensures hay[p] in t
  {
    assert t[p - i] == hay[i..i + |t|][p - i];
  }

  lemma WordLeft(hay: string, a: string, sep: string, b: string, t: string, i: nat)
    requires hay == a + sep + b && |sep| == 1 && !IsWordChar(sep[0]) && WordAt(a, t, i)
    ensures WordAt(hay, t, i)
  {
    assert hay[i..i + |t|] == a[i..i + |t|];
  }

  lemma WordRight(hay: string, a: string, sep: string, b: string, t: string, i: nat)
    requires hay == a + sep + b && |sep| == 1 && !IsWordChar(sep[0]) && WordAt(b, t, i)
    ensures WordAt(hay, t, |a| + 1 + i)
  {
    assert hay[|a| + 1 + i..|a| + 1 + i + |t|] == b[i..i + |t|];
    assert i > 0 ==> hay[|a| + i] == b[i - 1];
  }

  lemma WordAcross(a: string, b: string, t: string)
    requires '\n' !in t
    ensures HasWord(a + "\n" + b, t) <==> HasWord(a, t) || HasWord(b, t)
  {
    hide WordAt;
    var hay := a + "\n" + b;
    if HasWord(hay, t) {
      var i: nat :| WordAt(hay, t, i);
      WordWithin(hay, a, "\n", b, t, i);
    }
    if HasWord(a, t) {
      var i: nat :| WordAt(a, t, i);
      WordLeft(hay, a, "\n", b, t, i);
    }
    if HasWord(b, t) {
      var i: nat :| WordAt(b, t, i);
      WordRight(hay, a, "\n", b, t, i);
    }
  }

  lemma NoWordInNothing(t: string)
    ensures !HasWord("", t)
  {
  }

  lemma {:induction false} WordInLines(lower: Lowering, names: seq<string>, t: string)
    requires KeepsLines(lower) && '\n' !in lower(t)
    ensures HasWord(lower(Lines(names)), lower(t)) <==> exists name :: name in names && HasWord(lower(name), lower(t))
  {
    hide HasWord;
    if names == [] {
      NoWordInNothing(lower(t));
    } else if |names| == 1 {
      assert names[0] in names;
    } else {
      WordInLines(lower, names[1..], t);
      WordAcross(lower(names[0]), lower(Lines(names[1..])), lower(t));
      assert lower(Lines(names)) == lower(names[0]) + "\n" + lower(Lines(names[1..]));
      assert forall name :: name in names <==> name == names[0] || name in names[1..];
    }
  }

  ghost predicate PlainTerms(lower: Lowering, db: Database) {
    forall k, t :: k in db.allergens && t in db.allergens[k].terms ==> '\n' !in lower(t)
  }

  /** Scanning the joined names flags an allergen exactly when scanning some single name does, as long as
      no term contains a newline. */
  lemma JoiningIsSafe(lower: Lowering, db: Database, names: seq<string>, key: string)
    requires KeepsLines(lower) && PlainTerms(lower, db)
    ensures Flagged(lower, db, Lines(names), key) <==> exists name :: name in names && Flagged(lower, db, name, key)
  {
    hide HasWord;
    if key in db.big9 && key in db.allergens {
      forall t | t in db.allergens[key].terms
        ensures HasWord(lower(Lines(names)), lower(t))
                <==> exists name :: name in names && HasWord(lower(name), lower(t))
      {
        WordInLines(lower, names, t);
      }
    }
  }

  ghost predicate HasFlag(flags: seq<Flag>, key: string) { exists f :: f in flags && f.allergen == key }

  /** Flags and flagged allergens are the same thing. */
  lemma FlaggedIffFlag(lower: Lowering, db: Database, text: string, key: string)
    ensures Flagged(lower, db, text, key)
            <==> HasFlag(Flags(lower, db, lower(text), db.big9), key)
  {
    FlagsAre(lower, db, text, db.big9, key);
  }

  /** One scan over the joined names, which flags exactly what scanning the names one by one would. */
  method ScanIngredients(lower: Lowering, db: Database, names: seq<string>) returns (flags: seq<Flag>)
    ensures flags == Flags(lower, db, lower(Lines(names)), db.big9)
    ensures KeepsLines(lower) && PlainTerms(lower, db) ==>
              forall key :: HasFlag(flags, key)
                            <==> exists name :: name in names && Flagged(lower, db, name, key)
  {
    hide Flags, Flagged, KeepsLines, PlainTerms, HasFlag;
    flags := Scan(lower, db, Lines(names));
    if KeepsLines(lower) && PlainTerms(lower, db) {
      forall key
        ensures HasFlag(flags, key)
                <==> exists name :: name in names && Flagged(lower, db, name, key)
      {
        JoiningIsSafe(lower, db, names, key);
        FlaggedIffFlag(lower, db, Lines(names), key);
      }
    }
  }

  /** Lowering keeps newlines where they are. */
  lemma LoweredNewline(lower: Lowering, s: string)
    requires KeepsLines(lower)
    ensures '\n' in lower(s) <==> '\n' in s
  {
    if i :| 0 <= i < |s| && s[i] == '\n' {
      assert s == s[..i] + "\n" + s[i + 1..];
      assert (lower(s[..i]) + "\n" + lower(s[i + 1..]))[|lower(s[..i])|] == '\n';
    }
  }

  lemma {:induction false} LinesJoined(names: seq<string>)
    requires names != []
    ensures Lines(names) == Joined(names, '\n')
  {
    if |names| > 1 { LinesJoined(names[1..]); }
  }

  lemma NeedleWithin(hay: string, needle: string, c: char)
    requires HasWord(hay, needle) && c in needle
    ensures c in hay
  {
    var i: nat :| WordAt(hay, needle, i);
    var k :| 0 <= k < |needle| && needle[k] == c;
    assert hay[i..i + |needle|][k] == hay[i + k];
  }

  /** The term is found in the joined names exactly when some single name has it. */
  ghost predicate JoinTells(lower: Lowering, names: seq<string>, t: string) {
    HasWord(lower(Lines(names)), lower(t)) <==> exists name :: name in names && HasWord(lower(name), lower(t))
  }

  /** A term whose lines are taken as the names is found in their join and in none of them. */
  lemma NewlineTermStraddles(lower: Lowering, t: string)
    requires KeepsLines(lower) && '\n' in lower(t)
    ensures HasWord(lower(Lines(Split(t, '\n'))), lower(t))
    ensures forall name :: name in Split(t, '\n') ==> !HasWord(lower(name), lower(t))
  {
    var names := Split(t, '\n');
    SplitJoins(t, '\n');
    LinesJoined(names);
    assert WordAt(lower(t), lower(t), 0);
    forall name | name in names ensures !HasWord(lower(name), lower(t)) {
      LoweredNewline(lower, name);
      if HasWord(lower(name), lower(t)) { NeedleWithin(lower(name), lower(t), '\n'); }
    }
  }

  /** Joining tells the truth about a term, for every list of names, if and only if it has no newline. */
  lemma JoiningSafeIff(lower: Lowering, t: string)
    requires KeepsLines(lower)
    ensures (forall names :: JoinTells(lower, names, t)) <==> '\n' !in lower(t)
  {
    hide HasWord, Lines;
    if '\n' in lower(t) {
      NewlineTermStraddles(lower, t);
      assert !JoinTells(lower, Split(t, '\n'), t);
    } else {
      forall names ensures JoinTells(lower, names, t) { WordInLines(lower, names, t); }
    }
  }
}
