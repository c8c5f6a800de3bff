/** Unlock codes (`unlock_codes.py`): big-endian base 32 over a human-typeable alphabet, and a verifier
    that accepts exactly the minted codes however they are typed. */
module UnlockCodes {
  import opened Text

  /** Crockford base 32: no I, L, O or U. */
  const ALPHABET: string := NUMERALS + "ABCDEFGHJK" + "MNPQRSTVWXYZ"
  const NUMERALS: string := "0123456789"
  const NONCE_BYTES: nat := 5
  const TAG_BYTES: nat := 10

  // -------------------------------------------------------------------- arithmetic

  function Pow2(n: nat): nat { if n == 0 then 1 else 2 * Pow2(n - 1) }

  function Pow32(n: nat): nat { if n == 0 then 1 else 32 * Pow32(n - 1) }

  function Pow256(n: nat): nat { if n == 0 then 1 else 256 * Pow256(n - 1) }

  /** The big-endian value of a byte string. */
  function BigEndian(data: Bytes): nat {
    if data == [] then 0 else BigEndian(data[..|data| - 1]) * 256 + data[|data| - 1]
  }

  /** The `k` low base-32 digits of `v`, most significant first. */
  function Digits(v: nat, k: nat): seq<nat> {
    if k == 0 then [] else Digits(v / 32, k - 1) + [v % 32]
  }

  function Symbols(digits: seq<nat>): string
    requires forall i :: 0 <= i < |digits| ==> digits[i] < 32
  {
    seq(|digits|, (i: nat) requires i < |digits| => ALPHABET[digits[i]])
  }

  lemma {:induction false} DigitsRange(v: nat, k: nat)
    ensures |Digits(v, k)| == k && forall i :: 0 <= i < k ==> Digits(v, k)[i] < 32
  {
    if k > 0 { DigitsRange(v / 32, k - 1); }
  }

  /** How many characters `n` bytes take, and how many zero bits pad the last one. */
  function Length(n: nat): nat { (8 * n + 4) / 5 }
  function Padding(n: nat): nat { 5 * Length(n) - 8 * n }

  /** The reference: the base-32 digits of the zero-padded big-endian value. */
  function B32(data: Bytes): (r: string)
    ensures |r| == Length(|data|)
  {
    var v, k := BigEndian(data) * Pow2(Padding(|data|)), Length(|data|);
    DigitsRange(v, k);
    Symbols(Digits(v, k))
  }

  lemma DivDiv(a: nat, b: nat, c: nat)
    requires b > 0 && c > 0
    ensures b * c > 0 && a / b / c == a / (b * c)
  {
    var q, r := a / b, a % b;
    var p, s := q / c, q % c;
    Nested(a, b, q, r, c, p, s);
    Bounded(b, s, r, c);
    Quotient(a, b * c, p, b * s + r);
  }

  lemma Nested(a: nat, b: nat, q: nat, r: nat, c: nat, p: nat, s: nat)
    requires a == b * q + r && q == c * p + s
    ensures a == (b * c) * p + (b * s + r)
  {
    Distribute(b, c, p, s);
  }

  lemma Distribute(b: nat, c: nat, p: nat, s: nat)
    ensures b * (c * p + s) == (b * c) * p + b * s
  {
  }

  lemma Bounded(b: nat, s: nat, r: nat, c: nat)
    requires r < b && s < c
    ensures b * s + r < b * c
  {
    assert b * s + b == b * (s + 1);
    assert b * (s + 1) <= b * c;
  }

  lemma Multiple(d: nat, x: int)
    requires d > 0
    ensures x >= 1 ==> d * x >= d
    ensures x <= -1 ==> d * x + d <= 0
  {
  }

  lemma Quotient(a: nat, d: nat, p: nat, r: nat)
    requires d > 0 && r < d && a == d * p + r
    ensures a / d == p && a % d == r
  {
    var e: int := a / d - p;
    Multiple(d, e);
    assert d * e == d * (a / d) - d * p;
    assert d * (a / d) + a % d == a;
  }

  lemma PowAdd(n: nat)
    ensures Pow2(n) > 0
    ensures Pow2(n + 5) == 32 * Pow2(n)
    ensures Pow2(n + 8) == 256 * Pow2(n)
  {
    if n > 0 { PowAdd(n - 1); }
    assert Pow2(n + 1) == 2 * Pow2(n);
    assert Pow2(n + 2) == 4 * Pow2(n) && Pow2(n + 3) == 8 * Pow2(n) && Pow2(n + 4) == 16 * Pow2(n);
    assert Pow2(n + 5) == 32 * Pow2(n) && Pow2(n + 6) == 64 * Pow2(n) && Pow2(n + 7) == 128 * Pow2(n);
  }

  /** One more character from five fewer pending bits. */
  lemma TakeFive(value: nat, bits: nat)
    requires bits >= 5
    ensures Pow2(bits) > 0 && Pow2(bits - 5) > 0 && value / Pow2(bits - 5) / 32 == value / Pow2(bits)
  {
    PowAdd(bits - 5);
    PowAdd(bits);
    DivDiv(value, Pow2(bits - 5), 32);
    assert Pow2(bits - 5) * 32 == Pow2(bits);
  }

  /** Eight more pending bits leave the characters already due unchanged. */
  lemma TakeByte(value: nat, bits: nat, byte: Byte)
    ensures Pow2(bits) > 0 && Pow2(bits + 8) > 0 && (value * 256 + byte) / Pow2(bits + 8) == value / Pow2(bits)
  {
    PowAdd(bits);
    PowAdd(bits + 8);
    DivDiv(value * 256 + byte, 256, Pow2(bits));
    assert (value * 256 + byte) / 256 == value;
  }

  /** The padded last character. */
  lemma TakeRest(value: nat, bits: nat)
    requires 0 < bits < 5
    ensures Pow2(bits) > 0 && value * Pow2(5 - bits) / 32 == value / Pow2(bits)
  {
    PowAdd(bits);
    PowAdd(5 - bits);
    var a := Pow2(5 - bits);
    SmallPowers(bits);
    DivDiv(value * a, a, Pow2(bits));
    Quotient(value * a, a, value, 0);
  }

  lemma SmallPowers(bits: nat)
    requires 0 < bits < 5
    ensures Pow2(5 - bits) * Pow2(bits) == 32
  {
    assert Pow2(1) == 2 && Pow2(2) == 4 && Pow2(3) == 8 && Pow2(4) == 16;
  }

  lemma DigitsSnoc(v: nat, u: nat, k: nat)
    requires v / 32 == u
    ensures Digits(v, k + 1) == Digits(u, k) + [v % 32]
  {
  }

  lemma SymbolsSnoc(digits: seq<nat>, d: nat)
    requires d < 32 && forall i :: 0 <= i < |digits| ==> digits[i] < 32
    ensures Symbols(digits + [d]) == Symbols(digits) + [ALPHABET[d]]
  {
  }

  function SymbolsOf(v: nat, k: nat): (r: string)
    ensures |r| == k
  {
    DigitsRange(v, k);
    Symbols(Digits(v, k))
  }

  lemma SymbolsOfSnoc(v: nat, u: nat, k: nat)
    requires v / 32 == u
    ensures SymbolsOf(v, k + 1) == SymbolsOf(u, k) + [ALPHABET[v % 32]]
  {
    DigitsRange(u, k);
    DigitsRange(v, k + 1);
    DigitsSnoc(v, u, k);
    SymbolsSnoc(Digits(u, k), v % 32);
  }

  function Div(a: nat, d: nat): nat
    requires d > 0
  {
    a / d
  }

  /** `value >> bits`. */
  function Shift(value: nat, bits: nat): nat {
    PowAdd(bits);
    Div(value, Pow2(bits))
  }

  /** The characters due so far: all but the pending bits of the register. */
  predicate Due(out: string, value: nat, bits: nat) { out == SymbolsOf(Shift(value, bits), |out|) }

  /** `_b32`: the encoder's shift register computes the reference. The register is never masked, as
      integers are unbounded. */
  method Encode(data: Bytes) returns (out: string)
    ensures out == B32(data)
  {
    hide Due, Pow2, Digits, Symbols, SymbolsOf, B32;
    var bits: nat := 0;
    var value: nat := 0;
    out := "";
    NothingDue();
    for i := 0 to |data|
      invariant value == BigEndian(data[..i])
      invariant bits < 5 && 5 * |out| + bits == 8 * i && Due(out, value, bits)
    {
      assert data[..i + 1][..i] == data[..i];
      DueByte(out, value, bits, data[i]);
      value := value * 256 + data[i];
      bits := bits + 8;
      while bits >= 5
        invariant 5 * |out| + bits == 8 * (i + 1) && Due(out, value, bits)
      {
        DueFive(out, value, bits);
        bits := bits - 5;
        out := out + [ALPHABET[Shift(value, bits) % 32]];
      }
    }
    assert data[..|data|] == data;
    DueEnd(data, out, bits);
    if bits > 0 { out := out + [ALPHABET[value * Pow2(5 - bits) % 32]]; }
  }

  lemma NothingDue()
    ensures Due("", 0, 0)
  {
  }

  lemma DueByte(out: string, value: nat, bits: nat, byte: Byte)
    requires Due(out, value, bits)
    ensures Due(out, value * 256 + byte, bits + 8)
  {
    TakeByte(value, bits, byte);
  }

  lemma DueFive(out: string, value: nat, bits: nat)
    requires bits >= 5 && Due(out, value, bits)
    ensures Due(out + [ALPHABET[Shift(value, bits - 5) % 32]], value, bits - 5)
  {
    hide SymbolsOf, Pow2;
    TakeFive(value, bits);
    SymbolsOfSnoc(Shift(value, bits - 5), Shift(value, bits), |out|);
  }

  lemma DueEnd(data: Bytes, out: string, bits: nat)
    requires bits < 5 && 5 * |out| + bits == 8 * |data| && Due(out, BigEndian(data), bits)
    ensures B32(data) == if bits > 0 then out + [ALPHABET[BigEndian(data) * Pow2(5 - bits) % 32]] else out
  {
    hide SymbolsOf, BigEndian;
    var value := BigEndian(data);
    if bits > 0 {
      TakeRest(value, bits);
      SymbolsOfSnoc(value * Pow2(5 - bits), Shift(value, bits), |out|);
      Encoded(data, 5 - bits, |out| + 1);
    } else {
      assert Pow2(0) == 1;
      Encoded(data, 0, |out|);
    }
  }

  lemma Encoded(data: Bytes, p: nat, k: nat)
    requires p == Padding(|data|) && k == Length(|data|)
    ensures B32(data) == SymbolsOf(BigEndian(data) * Pow2(p), k)
  {
  }

  // ------------------------------------------------------------------ injectivity

  /** The value of a digit string. */
  function ValueOf(digits: seq<nat>): nat {
    if digits == [] then 0 else ValueOf(digits[..|digits| - 1]) * 32 + digits[|digits| - 1]
  }

  lemma {:induction false} DigitsBack(v: nat, k: nat)
    requires v < Pow32(k)
    ensures ValueOf(Digits(v, k)) == v
  {
    if k > 0 {
      DigitsBack(v / 32, k - 1);
      assert Digits(v, k)[..k - 1] == Digits(v / 32, k - 1) by { DigitsRange(v / 32, k - 1); }
      DigitsRange(v, k);
    }
  }

  lemma {:induction false} BigEndianBound(data: Bytes)
    ensures BigEndian(data) < Pow256(|data|)
  {
    if data != [] { BigEndianBound(data[..|data| - 1]); }
  }

  lemma {:induction false} BigEndianInjective(a: Bytes, b: Bytes)
    requires |a| == |b| && BigEndian(a) == BigEndian(b)
    ensures a == b
  {
    if a != [] {
      var n := |a| - 1;
      BigEndianInjective(a[..n], b[..n]);
      assert a == a[..n] + [a[n]] && b == b[..n] + [b[n]];
    }
  }

  lemma {:induction false} Widths(n: nat)
    ensures Pow32(n) == Pow2(5 * n) && Pow256(n) == Pow2(8 * n)
  {
    if n > 0 {
      Widths(n - 1);
      PowAdd(5 * (n - 1));
      PowAdd(8 * (n - 1));
    }
  }

  lemma {:induction false} PowSum(a: nat, b: nat)
    ensures Pow2(a + b) == Pow2(a) * Pow2(b)
  {
    if b > 0 {
      PowSum(a, b - 1);
      assert Pow2(a) * (2 * Pow2(b - 1)) == 2 * (Pow2(a) * Pow2(b - 1));
    }
  }

  lemma Scale(a: nat, b: nat, c: nat)
    requires a < b && c > 0
    ensures a * c < b * c
  {
  }

  lemma FitsDigits(data: Bytes)
    ensures BigEndian(data) * Pow2(Padding(|data|)) < Pow32(Length(|data|))
  {
    hide BigEndian, Pow2, Pow32, Pow256;
    var n, p := |data|, Padding(|data|);
    BigEndianBound(data);
    Widths(n);
    Widths(Length(n));
    PowSum(8 * n, p);
    PowAdd(p);
    Scale(BigEndian(data), Pow256(n), Pow2(p));
  }

  lemma SymbolsInjective(a: seq<nat>, b: seq<nat>)
    requires forall i :: 0 <= i < |a| ==> a[i] < 32
    requires forall i :: 0 <= i < |b| ==> b[i] < 32
    requires Symbols(a) == Symbols(b)
    ensures a == b
  {
    assert |Symbols(a)| == |a| && |Symbols(b)| == |b|;
    forall i | 0 <= i < |a| ensures a[i] == b[i] {
      assert Symbols(a)[i] == ALPHABET[a[i]] && Symbols(b)[i] == ALPHABET[b[i]];
      AlphabetDistinct(a[i], b[i]);
    }
  }

  function SymbolValue(c: char): nat {
    if '0' <= c <= '9' then (c - '0') as nat
    else if 'A' <= c <= 'H' then (c - 'A') as nat + 10
    else if 'J' <= c <= 'K' then (c - 'J') as nat + 18
    else if 'M' <= c <= 'N' then (c - 'M') as nat + 20
    else if 'P' <= c <= 'T' then (c - 'P') as nat + 22
    else if 'V' <= c <= 'Z' then (c - 'V') as nat + 27
    else 0
  }

  lemma AlphabetValues(d: nat)
    requires d < 32
    ensures SymbolValue(ALPHABET[d]) == d
  {
    assert d < 10 ==> ALPHABET[d] == "0123456789"[d];
    assert 10 <= d < 20 ==> ALPHABET[d] == "ABCDEFGHJK"[d - 10];
    assert 20 <= d ==> ALPHABET[d] == "MNPQRSTVWXYZ"[d - 20];
  }

  lemma AlphabetDistinct(d: nat, e: nat)
    requires d < 32 && e < 32 && ALPHABET[d] == ALPHABET[e]
    ensures d == e
  {
    AlphabetValues(d);
    AlphabetValues(e);
  }

  /** The encoding loses nothing, length by length. */
  lemma B32Injective(a: Bytes, b: Bytes)
    requires |a| == |b| && B32(a) == B32(b)
    ensures a == b
  {
    var k, p := Length(|a|), Pow2(Padding(|a|));
    var v, u := BigEndian(a) * p, BigEndian(b) * p;
    DigitsRange(v, k);
    DigitsRange(u, k);
    SymbolsInjective(Digits(v, k), Digits(u, k));
    FitsDigits(a);
    FitsDigits(b);
    DigitsBack(v, k);
    DigitsBack(u, k);
    PowAdd(Padding(|a|));
    Cancel(BigEndian(a), BigEndian(b), p);
    BigEndianInjective(a, b);
  }

  lemma Cancel(a: nat, b: nat, c: nat)
    requires c > 0 && a * c == b * c
    ensures a == b
  {
    Quotient(a * c, c, a, 0);
    Quotient(b * c, c, b, 0);
  }

  // ---------------------------------------------------------------- surjectivity

  /** The big-endian bytes of a value. */
  function BytesOf(v: nat, n: nat): Bytes {
    if n == 0 then [] else BytesOf(v / 256, n - 1) + [v % 256]
  }

  lemma {:induction false} BytesBack(v: nat, n: nat)
    requires v < Pow256(n)
    ensures |BytesOf(v, n)| == n && BigEndian(BytesOf(v, n)) == v
  {
    if n > 0 { BytesBack(v / 256, n - 1); }
  }

  lemma {:induction false} ValueBound(digits: seq<nat>)
    requires forall i :: 0 <= i < |digits| ==> digits[i] < 32
    ensures ValueOf(digits) < Pow32(|digits|)
  {
    if digits != [] { ValueBound(digits[..|digits| - 1]); }
  }

  lemma {:induction false} DigitsForth(digits: seq<nat>)
    requires forall i :: 0 <= i < |digits| ==> digits[i] < 32
    ensures Digits(ValueOf(digits), |digits|) == digits
  {
    if digits != [] {
      var n := |digits| - 1;
      DigitsForth(digits[..n]);
      LastDigit(ValueOf(digits[..n]), digits[n]);
      assert digits == digits[..n] + [digits[n]];
    }
  }

  lemma LastDigit(v: nat, d: nat)
    requires d < 32
    ensures (v * 32 + d) / 32 == v && (v * 32 + d) % 32 == d
  {
  }

  predicate IsSymbol(c: char) { c in ALPHABET }

  predicate InRanges(c: char) {
    '0' <= c <= '9' || 'A' <= c <= 'H' || 'J' <= c <= 'K' || 'M' <= c <= 'N' || 'P' <= c <= 'T' || 'V' <= c <= 'Z'
  }

  lemma SymbolIff(c: char)
    ensures IsSymbol(c) <==> InRanges(c)
  {
    if InRanges(c) {
      var d := SymbolValue(c);
      assert d < 10 ==> ALPHABET[d] == "0123456789"[d] == c;
      assert 10 <= d < 20 ==> ALPHABET[d] == "ABCDEFGHJK"[d - 10] == c;
      assert 20 <= d < 32 ==> ALPHABET[d] == "MNPQRSTVWXYZ"[d - 20] == c;
    }
    forall d: nat | d < 32 ensures InRanges(ALPHABET[d]) { SymbolRanges(d); }
  }

  lemma SymbolRanges(d: nat)
    requires d < 32
    ensures InRanges(ALPHABET[d])
  {
    assert d < 10 ==> ALPHABET[d] == "0123456789"[d];
    assert 10 <= d < 20 ==> ALPHABET[d] == "ABCDEFGHJK"[d - 10];
    assert 20 <= d ==> ALPHABET[d] == "MNPQRSTVWXYZ"[d - 20];
  }

  predicate AllSymbols(s: string) { forall i :: 0 <= i < |s| ==> IsSymbol(s[i]) }

  function DigitsOf(s: string): seq<nat> { seq(|s|, (i: nat) requires i < |s| => SymbolValue(s[i])) }

  lemma SymbolBack(c: char)
    requires IsSymbol(c)
    ensures SymbolValue(c) < 32 && ALPHABET[SymbolValue(c)] == c
  {
    var d :| 0 <= d < 32 && ALPHABET[d] == c;
    AlphabetValues(d);
  }

  lemma DigitsOfSymbols(digits: seq<nat>)
    requires forall i :: 0 <= i < |digits| ==> digits[i] < 32
    ensures DigitsOf(Symbols(digits)) == digits
  {
    hide SymbolValue;
    forall i | 0 <= i < |digits| ensures SymbolValue(ALPHABET[digits[i]]) == digits[i] { AlphabetValues(digits[i]); }
  }

  lemma SymbolsValue(v: nat, k: nat)
    requires v < Pow32(k)
    ensures ValueOf(DigitsOf(SymbolsOf(v, k))) == v
  {
    hide Pow32, ValueOf, Digits;
    DigitsRange(v, k);
    DigitsOfSymbols(Digits(v, k));
    DigitsBack(v, k);
  }

  /** Read as a base-32 number, the encoding is the zero-padded big-endian value. */
  lemma B32Value(data: Bytes)
    ensures ValueOf(DigitsOf(B32(data))) == BigEndian(data) * Pow2(Padding(|data|))
  {
    hide *;
    Encoded(data, Padding(|data|), Length(|data|));
    FitsDigits(data);
    SymbolsValue(BigEndian(data) * Pow2(Padding(|data|)), Length(|data|));
  }

  /** Every eight symbols are the encoding of five bytes. */
  lemma B32Surjective(s: string) returns (nonce: Bytes)
    requires |s| == 8 && AllSymbols(s)
    ensures |nonce| == NONCE_BYTES && B32(nonce) == s
  {
    hide SymbolValue, BytesOf, Digits, ValueOf, Pow32, Pow256;
    var digits := DigitsOf(s);
    forall i | 0 <= i < 8 ensures digits[i] < 32 && ALPHABET[digits[i]] == s[i] { SymbolBack(s[i]); }
    ValueBound(digits);
    DigitsForth(digits);
    FortyBits();
    nonce := BytesOf(ValueOf(digits), 5);
    BytesBack(ValueOf(digits), 5);
    assert Pow2(0) == 1;
    DigitsRange(ValueOf(digits), 8);
    assert Symbols(digits) == s;
  }

  lemma FortyBits()
    ensures Pow32(8) == Pow256(5)
  {
    Widths(8);
    Widths(5);
  }

  lemma SymbolsAreSymbols(data: Bytes)
    ensures AllSymbols(B32(data))
  {
    var v, k := BigEndian(data) * Pow2(Padding(|data|)), Length(|data|);
    DigitsRange(v, k);
    forall i | 0 <= i < k ensures IsSymbol(B32(data)[i]) { assert B32(data)[i] == ALPHABET[Digits(v, k)[i]]; }
  }

  // -------------------------------------------------------------------- the codes

  function Upper(c: char): char { if 'a' <= c <= 'z' then c - 'a' + 'A' else c }

  function UpperAll(s: string): string { seq(|s|, (i: nat) requires i < |s| => Upper(s[i])) }

  predicate Ascii(s: string) { forall i :: 0 <= i < |s| ==> s[i] < 128 as char }

  /** `str.upper`, whose Unicode tables are not part of this model. */
  type Casing = string -> string

  /** What is known of it: on ASCII text it works character by character. */
  ghost predicate UppersAscii(upper: Casing) { forall s :: Ascii(s) ==> upper(s) == UpperAll(s) }

  /** What one upper-case character stands for, if anything. */
  function Read(c: char): Option<char> {
    var r := if c == 'O' then '0' else if c == 'I' || c == 'L' then '1' else c;
    if IsSymbol(r) then Some(r) else None
  }

  function Kept(typed: string): string {
    if typed == "" then ""
    else (if Read(typed[0]).Some? then [Read(typed[0]).value] else "") + Kept(typed[1..])
  }

  /** What is left of a typed code. */
  function Canonical(upper: Casing, typed: string): string { Kept(upper(typed)) }

  method Canonicalize(upper: Casing, input: string) returns (out: string)
    ensures out == Canonical(upper, input)
  {
    hide IsSymbol, Kept;
    out := "";
    var typed := upper(input);
    for i := 0 to |typed|
      invariant out + Kept(typed[i..]) == Kept(typed)
    {
      KeptStep(out, typed, i);
      var ch := typed[i];
      if ch == 'O' {
        ch := '0';
      } else if ch == 'I' || ch == 'L' {
        ch := '1';
      }
      if IsSymbol(ch) { out := out + [ch]; }
    }
    NothingTyped();
    assert typed[|typed|..] == "";
  }

  lemma NothingTyped()
    ensures Kept("") == ""
  {
  }

  lemma KeptStep(out: string, typed: string, i: nat)
    requires i < |typed|
    ensures out + Kept(typed[i..]) ==
            if Read(typed[i]).Some? then out + [Read(typed[i]).value] + Kept(typed[i + 1..])
                else out + Kept(typed[i + 1..])
  {
    hide Read;
    assert typed[i..][1..] == typed[i + 1..];
  }

  /** The keyed hash of the signed text, whatever it is; its first ten bytes are used. */
  type Mac = string -> Bytes

  const SIGN_PREFIX: string := "HP0|cooking-assistant|"

  function TagFor(mac: Mac, nonce: string): string
    requires |mac(SIGN_PREFIX + nonce)| >= TAG_BYTES
  {
    B32(mac(SIGN_PREFIX + nonce)[..TAG_BYTES])
  }

  ghost predicate WideEnough(mac: Mac) { forall s :: |mac(s)| >= TAG_BYTES }

  /** The 29 significant characters. */
  function Significant(mac: Mac, nonce: string): string
    requires |mac(SIGN_PREFIX + nonce)| >= TAG_BYTES
  {
    "HP0CA" + nonce + TagFor(mac, nonce)
  }

  function Grouped(code: string): string
    requires |code| == 29
  {
    "HP0-CA-" + code[5..13] + "-" + code[13..17] + "-" + code[17..21] + "-" + code[21..25] + "-" + code[25..29]
  }

  function Generate(mac: Mac, nonce: Bytes): Option<string>
    requires forall s :: |mac(s)| >= TAG_BYTES
  {
    if |nonce| != NONCE_BYTES then None else Some(Grouped(Significant(mac, B32(nonce))))
  }

  predicate Verify(upper: Casing, mac: Mac, typed: string)
    requires forall s :: |mac(s)| >= TAG_BYTES
  {
    var s := Canonical(upper, typed);
    |s| == 29 && s[..5] == "HP0CA" && s[13..29] == TagFor(mac, s[5..13])
  }

  function NonceOf(upper: Casing, mac: Mac, typed: string): Option<string>
    requires forall s :: |mac(s)| >= TAG_BYTES
  {
    if Verify(upper, mac, typed) then Some(Canonical(upper, typed)[5..13]) else None
  }

  lemma {:induction false} KeptAppend(a: string, b: string)
    ensures Kept(a + b) == Kept(a) + Kept(b)
  {
    hide Read;
    if a == "" {
      assert a + b == b;
    } else {
      assert (a + b)[1..] == a[1..] + b && (a + b)[0] == a[0];
      KeptAppend(a[1..], b);
      var first := if Read(a[0]).Some? then [Read(a[0]).value] else "";
      Grouping(first, Kept(a[1..]), Kept(b));
    }
  }

  lemma Grouping(x: string, y: string, z: string)
    ensures x + (y + z) == x + y + z
  {
  }

  lemma ReadSymbol(c: char)
    requires IsSymbol(c)
    ensures Read(c) == Some(c)
  {
    hide IsSymbol;
    SymbolIff(c);
  }

  lemma {:induction false} KeptWhole(s: string)
    requires AllSymbols(s)
    ensures Kept(s) == s
  {
    if s != "" {
      ReadSymbol(s[0]);
      KeptWhole(s[1..]);
      assert s == [s[0]] + s[1..];
    }
  }

  lemma {:induction false} KeptIsSymbols(typed: string)
    ensures AllSymbols(Kept(typed))
  {
    if typed != "" { KeptIsSymbols(typed[1..]); }
  }

  /** Digits, upper-case letters and dashes are left alone. */
  predicate Settled(s: string) { forall i :: 0 <= i < |s| ==> InRanges(s[i]) || s[i] == '-' }

  lemma UpperSettled(upper: Casing, s: string)
    requires UppersAscii(upper) && Settled(s)
    ensures upper(s) == s
  {
    assert Ascii(s);
    assert UpperAll(s) == s;
  }

  lemma SymbolsSettled(s: string)
    requires AllSymbols(s)
    ensures Settled(s)
  {
    hide IsSymbol;
    forall i | 0 <= i < |s| ensures InRanges(s[i]) { SymbolIff(s[i]); }
  }

  /** Canonicalizing twice changes nothing more. */
  lemma CanonicalIdempotent(upper: Casing, typed: string)
    requires UppersAscii(upper)
    ensures Canonical(upper, Canonical(upper, typed)) == Canonical(upper, typed)
  {
    var s := Canonical(upper, typed);
    KeptIsSymbols(upper(typed));
    SymbolsSettled(s);
    UpperSettled(upper, s);
    KeptWhole(s);
  }

  lemma PrefixSymbols()
    ensures IsSymbol('H') && IsSymbol('P') && IsSymbol('0') && IsSymbol('C') && IsSymbol('A') && !IsSymbol('-')
  {
    hide IsSymbol;
    SymbolIff('H');
    SymbolIff('P');
    SymbolIff('0');
    SymbolIff('C');
    SymbolIff('A');
    SymbolIff('-');
  }

  lemma Dash()
    ensures Kept("-") == "" && Kept("HP0-CA-") == "HP0CA"
  {
    hide IsSymbol, Kept;
    PrefixSymbols();
    DashMeansNothing();
    KeptWhole("HP0");
    KeptWhole("CA");
    KeptAppend("HP0" + "-" + "CA", "-");
    KeptAppend("HP0" + "-", "CA");
    KeptAppend("HP0", "-");
    assert "HP0-CA-" == "HP0" + "-" + "CA" + "-";
  }

  lemma DashMeansNothing()
    ensures Kept("-") == ""
  {
    hide IsSymbol;
    PrefixSymbols();
  }

  lemma Dashed(s: string, rest: string)
    ensures Kept(s + "-" + rest) == Kept(s) + Kept(rest)
  {
    Dash();
    KeptAppend(s + "-", rest);
    KeptAppend(s, "-");
  }

  lemma GroupedKept(code: string)
    requires |code| == 29 && code[..5] == "HP0CA" && AllSymbols(code)
    ensures Kept(Grouped(code)) == code
  {
    hide Kept;
    var a, b, c, d, e := code[5..13], code[13..17], code[17..21], code[21..25], code[25..29];
    Dash();
    Dashed("HP0-CA-" + a + "-" + b + "-" + c + "-" + d, e);
    Dashed("HP0-CA-" + a + "-" + b + "-" + c, d);
    Dashed("HP0-CA-" + a + "-" + b, c);
    Dashed("HP0-CA-" + a, b);
    KeptAppend("HP0-CA-", a);
    KeptWhole(a);
    KeptWhole(b);
    KeptWhole(c);
    KeptWhole(d);
    KeptWhole(e);
    Rejoined(code);
  }

  lemma GroupedSettled(code: string)
    requires |code| == 29 && AllSymbols(code)
    ensures Settled(Grouped(code))
  {
    hide AllSymbols;
    SymbolsSettled(code);
    var g := Grouped(code);
    forall i | 0 <= i < |g| ensures InRanges(g[i]) || g[i] == '-' { GroupedAt(code, i); }
  }

  lemma GroupedAt(code: string, i: nat)
    requires |code| == 29 && Settled(code) && i < |Grouped(code)|
    ensures InRanges(Grouped(code)[i]) || Grouped(code)[i] == '-'
  {
    var a, b := "HP0-CA-" + code[5..13] + "-" + code[13..17], code[17..21] + "-" + code[21..25] + "-" + code[25..29];
    assert Grouped(code) == a + "-" + b;
  }

  /** Grouping for display is undone by canonicalizing. */
  lemma GroupedReads(upper: Casing, code: string)
    requires UppersAscii(upper) && |code| == 29 && code[..5] == "HP0CA" && AllSymbols(code)
    ensures Canonical(upper, Grouped(code)) == code
  {
    hide Kept, Grouped;
    GroupedSettled(code);
    UpperSettled(upper, Grouped(code));
    GroupedKept(code);
  }

  lemma Rejoined(code: string)
    requires |code| == 29
    ensures code[..5] + code[5..13] + code[13..17] + code[17..21] + code[21..25] + code[25..29] == code
  {
  }

  lemma SignificantReads(mac: Mac, nonce: string)
    requires WideEnough(mac) && |nonce| == 8 && AllSymbols(nonce)
    ensures var s := Significant(mac, nonce);
            |s| == 29 && AllSymbols(s) && s[..5] == "HP0CA" && s[5..13] == nonce && s[13..29] == TagFor(mac, nonce)
  {
    SymbolsAreSymbols(mac(SIGN_PREFIX + nonce)[..TAG_BYTES]);
    PrefixSymbols();
  }

  /** What a minted code is: the prefix, the nonce's eight symbols and the sixteen that encode the first ten
      bytes of the keyed hash over the prefixed nonce, set in groups between dashes. */
  lemma MintedText(mac: Mac, nonce: Bytes)
    requires WideEnough(mac) && |nonce| == NONCE_BYTES
    ensures var n := B32(nonce);
            var tag := B32(mac("HP0|cooking-assistant|" + n)[..10]);
            && |n| == 8 && |tag| == 16
            && Generate(mac, nonce) == Some("HP0-CA-" + n + "-" + tag[..4] + "-" + tag[4..8] + "-" + tag[8..12] + "-"
                                            + tag[12..])
  {
    hide B32;
    var n := B32(nonce);
    var tag := B32(mac("HP0|cooking-assistant|" + n)[..10]);
    assert SIGN_PREFIX == "HP0|cooking-assistant|" && TAG_BYTES == 10;
    assert |n| == 8 && |tag| == 16;
    CodeParts(n, tag);
  }

  lemma CodeParts(n: string, tag: string)
    requires |n| == 8 && |tag| == 16
    ensures var code := "HP0CA" + n + tag;
            && code[5..13] == n && code[13..17] == tag[..4] && code[17..21] == tag[4..8]
            && code[21..25] == tag[8..12] && code[25..29] == tag[12..] && |code| == 29
  {
  }

  /** A minted code verifies and gives back its nonce, whatever the keyed hash. */
  lemma MintedVerifies(upper: Casing, mac: Mac, nonce: Bytes)
    requires UppersAscii(upper) && WideEnough(mac) && |nonce| == NONCE_BYTES
    ensures Generate(mac, nonce).Some? && Verify(upper, mac, Generate(mac, nonce).value)
    ensures NonceOf(upper, mac, Generate(mac, nonce).value) == Some(B32(nonce))
  {
    hide Canonical, Grouped, B32;
    SymbolsAreSymbols(nonce);
    assert |B32(nonce)| == 8;
    SignificantReads(mac, B32(nonce));
    GroupedReads(upper, Significant(mac, B32(nonce)));
  }

  /** The verifier accepts exactly the minted codes, however they are typed. */
  lemma VerifiesIffMinted(upper: Casing, mac: Mac, typed: string)
    requires UppersAscii(upper) && WideEnough(mac)
    ensures Verify(upper, mac, typed) <==>
            exists nonce: Bytes ::
              |nonce| == NONCE_BYTES && Canonical(upper, typed) == Canonical(upper, Generate(mac, nonce).value)
  {
    hide Verify, Canonical, B32, Grouped;
    if Verify(upper, mac, typed) { var nonce := MintedNonce(upper, mac, typed); }
    if nonce: Bytes :|
      |nonce| == NONCE_BYTES && Canonical(upper, typed) == Canonical(upper, Generate(mac, nonce).value)
    {
      MintedVerifies(upper, mac, nonce);
      SameCanonical(upper, mac, typed, Generate(mac, nonce).value);
    }
  }

  lemma SameCanonical(upper: Casing, mac: Mac, a: string, b: string)
    requires WideEnough(mac) && Canonical(upper, a) == Canonical(upper, b)
    ensures Verify(upper, mac, a) <==> Verify(upper, mac, b)
    ensures NonceOf(upper, mac, a) == NonceOf(upper, mac, b)
  {
    hide Canonical, TagFor;
  }

  lemma MintedNonce(upper: Casing, mac: Mac, typed: string) returns (nonce: Bytes)
    requires UppersAscii(upper) && WideEnough(mac) && Verify(upper, mac, typed)
    ensures |nonce| == NONCE_BYTES && Canonical(upper, typed) == Canonical(upper, Generate(mac, nonce).value)
  {
    hide Kept, Grouped, B32;
    var s := Canonical(upper, typed);
    KeptIsSymbols(upper(typed));
    nonce := B32Surjective(s[5..13]);
    SignificantReads(mac, s[5..13]);
    GroupedReads(upper, Significant(mac, s[5..13]));
    assert s == s[..5] + s[5..13] + s[13..29];
  }

  // -------------------------------------------------------------------- retyping

  /** Two upper-cased typings of the same code: characters that mean nothing come and go, others are
      replaced by characters read alike. */
  ghost predicate SameTyping(a: string, b: string)
    decreases |a| + |b|
  {
    || (a == "" && b == "")
    || (a != "" && Read(a[0]).None? && SameTyping(a[1..], b))
    || (b != "" && Read(b[0]).None? && SameTyping(a, b[1..]))
    || (a != "" && b != "" && Read(a[0]) == Read(b[0]) && SameTyping(a[1..], b[1..]))
  }

  lemma {:induction false} SameTypingReadsAlike(a: string, b: string)
    requires SameTyping(a, b)
    ensures Kept(a) == Kept(b)
    decreases |a| + |b|
  {
    if a != "" && Read(a[0]).None? && SameTyping(a[1..], b) {
      SameTypingReadsAlike(a[1..], b);
    } else if b != "" && Read(b[0]).None? && SameTyping(a, b[1..]) {
      SameTypingReadsAlike(a, b[1..]);
    } else if a != "" && b != "" {
      SameTypingReadsAlike(a[1..], b[1..]);
    }
  }

  /** Case, separators and the look-alikes O and 0, I, L and 1 do not matter. */
  lemma RetypingVerifies(upper: Casing, mac: Mac, a: string, b: string)
    requires WideEnough(mac) && SameTyping(upper(a), upper(b))
    ensures Verify(upper, mac, a) == Verify(upper, mac, b) && NonceOf(upper, mac, a) == NonceOf(upper, mac, b)
  {
    SameTypingReadsAlike(upper(a), upper(b));
    SameCanonical(upper, mac, a, b);
  }

  /** Letters that differ in case only are the same letter, and look-alikes and separators read so. */
  lemma LookAlikes(upper: Casing, typed: string)
    requires UppersAscii(upper) && Ascii(typed)
    ensures upper(UpperAll(typed)) == upper(typed)
    ensures Read('O') == Read('0') == Some('0')
    ensures Read('I') == Read('L') == Read('1') == Some('1')
    ensures Read('-') == Read(' ') == Read('U') == None
  {
    hide IsSymbol;
    assert Ascii(UpperAll(typed)) && UpperAll(UpperAll(typed)) == UpperAll(typed);
    SymbolIff('0');
    SymbolIff('1');
    SymbolIff('-');
    SymbolIff(' ');
    SymbolIff('U');
  }

  /** So the requirement on upper-casing can be met. */
  lemma UpperAllUppers()
    ensures UppersAscii(UpperAll)
  {
  }
}
