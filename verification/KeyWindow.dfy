/** The rolling window of trusted keys and offline license verification (`license_verify.rs`). */
module KeyWindow {
  import opened Text
  import opened Json

  datatype SigAlg = Es256 | EdDsa {
    function JwsName(): string { if Es256? then "ES256" else "EdDSA" }
  }

  datatype TrustedKey = TrustedKey(kid: string, alg: SigAlg, publicKey: Bytes)

  const DEFAULT_TRUSTED_SET_SIZE: nat := 5

  // ------------------------------------------------------------------- the window

  /** `retain`: everything but this kid. */
  function Without(keys: seq<TrustedKey>, kid: string): seq<TrustedKey> {
    if keys == [] then []
    else if keys[0].kid != kid then [keys[0]] + Without(keys[1..], kid)
    else Without(keys[1..], kid)
  }

  /** The newest `max` keys; zero means no bound. */
  function Newest(keys: seq<TrustedKey>, max: nat): seq<TrustedKey> {
    if max > 0 && |keys| > max then keys[|keys| - max..] else keys
  }

  function FindKey(keys: seq<TrustedKey>, kid: string): Option<TrustedKey> {
    if keys == [] then None else if keys[0].kid == kid then Some(keys[0]) else FindKey(keys[1..], kid)
  }

  function Inserted(keys: seq<TrustedKey>, key: TrustedKey, max: nat): seq<TrustedKey> {
    Newest(Without(keys, key.kid) + [key], max)
  }

  /** Decoding and checking of key material, whatever they are. */
  datatype KeyCodec = KeyCodec(decode: string -> Option<Bytes>, wellFormed: (SigAlg, Bytes) -> bool)

  class TrustedKeySet {
    var keys: seq<TrustedKey>
    const maxSize: nat
    ghost var history: seq<TrustedKey>

    /** The window holds what the reference function makes of everything inserted so far. */
    ghost predicate Valid()
      reads this
    {
      keys == Window(history, maxSize)
    }

    constructor ()
      ensures Valid() && history == [] && maxSize == DEFAULT_TRUSTED_SET_SIZE
    {
      keys := [];
      history := [];
      maxSize := DEFAULT_TRUSTED_SET_SIZE;
    }

    constructor WithMaxSize(maxSize: nat)
      ensures Valid() && history == [] && this.maxSize == maxSize
    {
      keys := [];
      history := [];
      this.maxSize := maxSize;
    }

    method Insert(key: TrustedKey)
      requires Valid()
      modifies this
      ensures Valid() && history == old(history) + [key]
      ensures keys == Inserted(old(keys), key, maxSize)
    {
      WindowStep(history, key, maxSize);
      history := history + [key];
      var kept: seq<TrustedKey> := [];
      ghost var before := keys;
      for i := 0 to |keys|
        invariant keys == before && history == old(history) + [key]
        invariant kept + Without(keys[i..], key.kid) == Without(keys, key.kid)
      {
        assert keys[i..][1..] == keys[i + 1..];
        if keys[i].kid != key.kid { kept := kept + [keys[i]]; }
      }
      assert kept == Without(keys, key.kid);
      keys := kept + [key];
      if maxSize > 0 && |keys| > maxSize {
        var overflow := |keys| - maxSize;
        keys := keys[overflow..];
      }
    }

    /** Key material is checked on the way in; a bad key changes nothing. */
    method InsertSpki(c: KeyCodec, kid: string, alg: SigAlg, spki: string) returns (ok: bool)
      requires Valid()
      modifies this
      ensures Valid()
      ensures var der := c.decode(Trim(spki));
              && (ok <==> der.Some? && c.wellFormed(alg, der.value))
              && history == if ok then old(history) + [TrustedKey(kid, alg, der.value)] else old(history)
    {
      match c.decode(Trim(spki)) {
        case None => return false;
        case Some(der) =>
          if !c.wellFormed(alg, der) { return false; }
          Insert(TrustedKey(kid, alg, der));
          return true;
      }
    }

    method Get(kid: string) returns (key: Option<TrustedKey>)
      ensures key == FindKey(keys, kid)
    {
      for i := 0 to |keys|
        invariant FindKey(keys, kid) == FindKey(keys[i..], kid)
      {
        assert keys[i..][1..] == keys[i + 1..];
        if keys[i].kid == kid { return Some(keys[i]); }
      }
      return None;
    }
  }

  // ------------------------------------------------------------------ the history

  /** The last insertion of each kid, in insertion order. */
  function Latest(history: seq<TrustedKey>): seq<TrustedKey> {
    if history == [] then []
    else if history[0].kid in Kids(history[1..]) then Latest(history[1..])
    else [history[0]] + Latest(history[1..])
  }

  function Kids(keys: seq<TrustedKey>): set<string> { set k | k in keys :: k.kid }

  /** The reference: the newest `max` kids by last insertion, each with its latest key. */
  function Window(history: seq<TrustedKey>, max: nat): seq<TrustedKey> { Newest(Latest(history), max) }

  predicate DistinctKids(keys: seq<TrustedKey>) {
    forall i, j :: 0 <= i < j < |keys| ==> keys[i].kid != keys[j].kid
  }

  lemma KidsCons(keys: seq<TrustedKey>)
    requires keys != []
    ensures Kids(keys) == {keys[0].kid} + Kids(keys[1..])
  {
    assert keys == [keys[0]] + keys[1..];
  }

  lemma {:induction false} LatestKids(history: seq<TrustedKey>)
    ensures Kids(Latest(history)) == Kids(history) && |Latest(history)| == |Kids(history)|
    ensures DistinctKids(Latest(history))
  {
    hide Kids, DistinctKids;
    if history == [] {
      NoKids();
    } else {
      var rest := history[1..];
      LatestKids(rest);
      KidsCons(history);
      if history[0].kid !in Kids(rest) {
        var l := Latest(history);
        assert l[1..] == Latest(rest);
        KidsCons(l);
        DistinctCons(history[0], Latest(rest));
      }
    }
  }

  lemma NoKids()
    ensures Kids([]) == {} && DistinctKids([])
  {
  }

  lemma DistinctCons(key: TrustedKey, keys: seq<TrustedKey>)
    requires DistinctKids(keys) && key.kid !in Kids(keys)
    ensures DistinctKids([key] + keys)
  {
    forall j | 0 <= j < |keys| ensures keys[j].kid != key.kid { assert keys[j] in keys; }
  }

  lemma {:induction false} WithoutAll(keys: seq<TrustedKey>, kid: string)
    requires kid !in Kids(keys)
    ensures Without(keys, kid) == keys
  {
    if keys != [] {
      KidsCons(keys);
      WithoutAll(keys[1..], kid);
    }
  }

  lemma {:induction false} WithoutAppend(a: seq<TrustedKey>, b: seq<TrustedKey>, kid: string)
    ensures Without(a + b, kid) == Without(a, kid) + Without(b, kid)
  {
    if a == [] {
      assert a + b == b;
    } else {
      assert (a + b)[1..] == a[1..] + b;
      WithoutAppend(a[1..], b, kid);
    }
  }

  /** At most one key of a window goes. */
  lemma {:induction false} WithoutOne(keys: seq<TrustedKey>, kid: string)
    requires DistinctKids(keys)
    ensures |keys| - 1 <= |Without(keys, kid)| <= |keys|
  {
    if keys != [] {
      if keys[0].kid == kid {
        assert kid !in Kids(keys[1..]) by {
          assert forall j :: 0 < j < |keys| ==> keys[j].kid != kid;
        }
        WithoutAll(keys[1..], kid);
      } else {
        WithoutOne(keys[1..], kid);
      }
    }
  }

  lemma {:induction false} LatestAppend(history: seq<TrustedKey>, key: TrustedKey)
    ensures Latest(history + [key]) == Without(Latest(history), key.kid) + [key]
  {
    if history == [] {
      assert history + [key] == [key];
      assert Kids([]) == {};
    } else {
      var rest := history[1..];
      assert (history + [key])[1..] == rest + [key];
      LatestAppend(rest, key);
      KidsCons(rest + [key]) ;
      KidsSnoc(rest, key);
    }
  }

  lemma KidsSnoc(keys: seq<TrustedKey>, key: TrustedKey)
    ensures Kids(keys + [key]) == Kids(keys) + {key.kid}
  {
  }

  /** Inserting refines the reference: one more insertion in the history. */
  lemma WindowStep(history: seq<TrustedKey>, key: TrustedKey, max: nat)
    ensures Window(history + [key], max) == Inserted(Window(history, max), key, max)
  {
    var all := Latest(history);
    LatestAppend(history, key);
    LatestKids(history);
    if max > 0 && |all| > max {
      var cut := |all| - max;
      var earlier, kept := all[..cut], all[cut..];
      assert all == earlier + kept;
      WithoutAppend(earlier, kept, key.kid);
      WithoutOne(kept, key.kid);
      var a, b := Without(earlier, key.kid), Without(kept, key.kid);
      SameTail(a, b + [key], max);
      assert a + (b + [key]) == a + b + [key];
    }
  }

  lemma SameTail(a: seq<TrustedKey>, b: seq<TrustedKey>, max: nat)
    requires 0 < max <= |b|
    ensures Newest(a + b, max) == Newest(b, max)
  {
  }

  // ------------------------------------------------------------- aging out of view

  lemma {:induction false} FindLast(a: seq<TrustedKey>, key: TrustedKey, b: seq<TrustedKey>)
    requires key.kid !in Kids(a)
    ensures FindKey(a + [key] + b, key.kid) == Some(key)
  {
    if a == [] {
      assert (a + [key] + b)[0] == key;
    } else {
      KidsCons(a);
      assert (a + [key] + b)[1..] == a[1..] + [key] + b;
      FindLast(a[1..], key, b);
    }
  }

  lemma {:induction false} FindNone(keys: seq<TrustedKey>, kid: string)
    ensures FindKey(keys, kid).None? <==> kid !in Kids(keys)
  {
    if keys != [] {
      KidsCons(keys);
      FindNone(keys[1..], kid);
    }
  }

  lemma {:induction false} LatestSplits(before: seq<TrustedKey>, key: TrustedKey, since: seq<TrustedKey>)
      returns (earlier: seq<TrustedKey>)
    requires key.kid !in Kids(since)
    ensures Latest(before + [key] + since) == earlier + [key] + Latest(since) && key.kid !in Kids(earlier)
  {
    if before == [] {
      earlier := [];
      assert (before + [key] + since)[1..] == since;
    } else {
      var h := before + [key] + since;
      assert h[1..] == before[1..] + [key] + since;
      earlier := LatestSplits(before[1..], key, since);
      if before[0].kid !in Kids(h[1..]) {
        assert key in h[1..];
        ghost var longer := [before[0]] + earlier;
        KidsCons(longer);
        assert longer[1..] == earlier;
        assert [before[0]] + (earlier + [key] + Latest(since)) == longer + [key] + Latest(since);
        earlier := longer;
      }
    }
  }

  lemma KidsSuffix(keys: seq<TrustedKey>, i: nat, kid: string)
    requires i <= |keys| && kid !in Kids(keys)
    ensures kid !in Kids(keys[i..])
  {
    assert forall k :: k in keys[i..] ==> k in keys;
  }

  lemma NewestFinds(a: seq<TrustedKey>, key: TrustedKey, b: seq<TrustedKey>, max: nat)
    requires key.kid !in Kids(a) && key.kid !in Kids(b)
    ensures FindKey(Newest(a + [key] + b, max), key.kid) == if max == 0 || |b| < max then Some(key) else None
  {
    hide Kids, FindKey;
    var all := a + [key] + b;
    if max == 0 || |all| <= max {
      FindLast(a, key, b);
    } else if |b| < max {
      var cut := |all| - max;
      assert all[cut..] == a[cut..] + [key] + b;
      KidsSuffix(a, cut, key.kid);
      FindLast(a[cut..], key, b);
    } else {
      assert all[|all| - max..] == b[|b| - max..];
      KidsSuffix(b, |b| - max, key.kid);
      FindNone(b[|b| - max..], key.kid);
    }
  }

  /** A key stays findable until `max` other kids have been inserted since its own last insertion,
      however often each, and is gone from then on. */
  lemma FoundUntil(before: seq<TrustedKey>, key: TrustedKey, since: seq<TrustedKey>, max: nat)
    requires key.kid !in Kids(since)
    ensures FindKey(Window(before + [key] + since, max), key.kid) ==
            if max == 0 || |Kids(since)| < max then Some(key) else None
  {
    hide Kids, FindKey, Newest, Latest;
    var earlier := LatestSplits(before, key, since);
    LatestKids(since);
    NewestFinds(earlier, key, Latest(since), max);
  }

  // ------------------------------------------------------------------ the license

  datatype License = License(
    licenseId: string, sub: string, skillId: string, versionConstraint: string, deviceId: string,
    deviceBinding: Option<string>, maxDevices: int, iat: int, kid: string, alg: SigAlg)

  datatype LicenseError =
    | MalformedToken | MalformedHeader | MalformedPayload | UnexpectedTyp | MissingKid | UnknownKid | InsecureAlg
    | AlgConfusion(headerAlg: string, pinned: SigAlg) | MalformedSignature | BadPublicKey | BadSignature
    | InvalidClaims(claim: string)

  datatype Verification = Verified(license: License) | Rejected(error: LicenseError)

  const LICENSE_TYP := "hp-lic+jws"
  const EXPECTED_ISSUER := "hydropark-licensing"
  const EXPECTED_ENTITLEMENT := "perpetual"

  /** Segment decoding and the signature check of each algorithm, whatever they are. */
  datatype Crypto = Crypto(
    json: string -> Option<map<string, Value>>,
    bytes: string -> Option<Bytes>,
    check: (SigAlg, Bytes, string, Bytes) -> Option<LicenseError>)

  function Claim(p: map<string, Value>, field: string): Option<string> {
    if field in p && p[field].Str? && p[field].s != "" then Some(p[field].s) else None
  }

  function StrMember(p: map<string, Value>, field: string): Option<string> {
    if field in p then p[field].AsStr() else None
  }

  function IntMember(p: map<string, Value>, field: string): int {
    if field in p && p[field].AsI64().Some? then p[field].AsI64().value else 0
  }

  predicate EqIgnoreCase(a: string, b: string) {
    |a| == |b| && forall i :: 0 <= i < |a| ==> LowerChar(a[i]) == LowerChar(b[i])
  }

  function LowerChar(c: char): char { if 'A' <= c <= 'Z' then c - 'A' + 'a' else c }

  const REQUIRED: seq<string> := ["license_id", "sub", "skill_id", "version_constraint", "device_id"]

  function FirstMissing(p: map<string, Value>, fields: seq<string>): Option<string> {
    if fields == [] then None else if Claim(p, fields[0]).None? then Some(fields[0]) else FirstMissing(p, fields[1..])
  }

  function BuildLicense(p: map<string, Value>, kid: string, alg: SigAlg): Verification {
    if Claim(p, "iss") != Some(EXPECTED_ISSUER) then Rejected(InvalidClaims("iss"))
    else if Claim(p, "entitlement") != Some(EXPECTED_ENTITLEMENT) then Rejected(InvalidClaims("entitlement"))
    else if "exp" in p && p["exp"] != Null then Rejected(InvalidClaims("exp"))
    else
      match FirstMissing(p, REQUIRED)
      case Some(field) => Rejected(InvalidClaims(field))
      case None =>
        Verified(License(
          StrOrNone(p, "license_id"), StrOrNone(p, "sub"), StrOrNone(p, "skill_id"), StrOrNone(p, "version_constraint"),
          StrOrNone(p, "device_id"), StrMember(p, "device_binding"), IntMember(p, "max_devices"), IntMember(p, "iat"),
              kid, alg))
  }

  function StrOrNone(p: map<string, Value>, field: string): string {
    if Claim(p, field).Some? then Claim(p, field).value else ""
  }

  function VerifyLicense(c: Crypto, token: string, keys: seq<TrustedKey>): Verification {
    var parts := Split(token, '.');
    if |parts| != 3 || parts[0] == "" || parts[1] == "" || parts[2] == "" then Rejected(MalformedToken)
    else
      match c.json(parts[0])
      case None => Rejected(MalformedHeader)
      case Some(header) =>
        if StrMember(header, "typ") != Some(LICENSE_TYP) then Rejected(UnexpectedTyp)
        else
          match StrMember(header, "kid")
          case None => Rejected(MissingKid)
          case Some(kid) =>
            match FindKey(keys, kid)
            case None => Rejected(UnknownKid)
            case Some(trusted) => VerifyWith(c, parts, header, kid, trusted)
  }

  function VerifyWith(c: Crypto, parts: seq<string>, header: map<string, Value>, kid: string,
      trusted: TrustedKey): Verification
    requires |parts| == 3
  {
    match StrMember(header, "alg")
    case None => Rejected(InsecureAlg)
    case Some(a) =>
      if EqIgnoreCase(a, "none") then Rejected(InsecureAlg)
      else if a != trusted.alg.JwsName() then Rejected(AlgConfusion(a, trusted.alg))
      else
        match c.bytes(parts[2])
        case None => Rejected(MalformedSignature)
        case Some(sig) =>
          match c.check(trusted.alg, trusted.publicKey, parts[0] + "." + parts[1], sig)
          case Some(e) => Rejected(e)
          case None =>
            match c.json(parts[1])
            case None => Rejected(MalformedPayload)
            case Some(payload) => BuildLicense(payload, kid, trusted.alg)
  }

  /** The first trusted key of that kid. */
  ghost predicate TrustedAs(keys: seq<TrustedKey>, kid: string, key: TrustedKey) {
    exists i :: 0 <= i < |keys| && keys[i] == key && key.kid == kid && forall j :: 0 <= j < i ==> keys[j].kid != kid
  }

  predicate IsString(p: map<string, Value>, field: string, s: string) { field in p && p[field] == Str(s) }

  /** What a verified license is. The algorithm is the trusted key's, and the header only agrees with it; the
      signature covers the received bytes; the claims are the required ones. */
  ghost predicate Genuine(c: Crypto, token: string, keys: seq<TrustedKey>, l: License) {
    exists header: string, payload: string, sig: string, key: TrustedKey ::
      Framed(token, header, payload, sig) && TrustedAs(keys, l.kid, key) && Signed(c, header, payload, sig, key, l)
  }

  /** Three non-empty segments between dots. */
  predicate Framed(token: string, header: string, payload: string, sig: string) {
    && token == header + "." + payload + "." + sig && '.' !in header && '.' !in payload && '.' !in sig
    && header != "" && payload != "" && sig != ""
  }

  ghost predicate Signed(c: Crypto, header: string, payload: string, sig: string, key: TrustedKey, l: License) {
    && c.json(header).Some? && c.json(payload).Some? && c.bytes(sig).Some?
    && IsString(c.json(header).value, "typ", "hp-lic+jws") && IsString(c.json(header).value, "kid", l.kid)
    && IsString(c.json(header).value, "alg", if l.alg.Es256? then "ES256" else "EdDSA") && key.alg == l.alg
    && c.check(l.alg, key.publicKey, header + "." + payload, c.bytes(sig).value) == None
    && Licensed(c.json(payload).value, l)
  }

  /** The claims of a perpetual license; the names and numbers that may be left out or malformed are then
      none and zero. */
  ghost predicate Licensed(p: map<string, Value>, l: License) {
    && IsString(p, "iss", "hydropark-licensing") && IsString(p, "entitlement", "perpetual")
    && ("exp" in p ==> p["exp"] == Null)
    && IsString(p, "license_id", l.licenseId) && l.licenseId != "" && IsString(p, "sub", l.sub) && l.sub != ""
    && IsString(p, "skill_id", l.skillId) && l.skillId != ""
    && IsString(p, "version_constraint", l.versionConstraint) && l.versionConstraint != ""
    && IsString(p, "device_id", l.deviceId) && l.deviceId != ""
    && (forall s :: l.deviceBinding == Some(s) <==> IsString(p, "device_binding", s))
    && Counted(p, "max_devices", l.maxDevices) && Counted(p, "iat", l.iat)
  }

  /** A 64-bit integer, or zero for want of one. */
  predicate Counted(p: map<string, Value>, field: string, n: int) {
    if field in p && p[field].Num? && p[field].num.Int?
        && -0x8000_0000_0000_0000 <= p[field].num.n < 0x8000_0000_0000_0000
    then n == p[field].num.n else n == 0
  }

  lemma {:induction false} FindTrusted(keys: seq<TrustedKey>, kid: string)
    ensures forall key :: FindKey(keys, kid) == Some(key) <==> TrustedAs(keys, kid, key)
  {
    if keys != [] {
      var rest := keys[1..];
      FindTrusted(rest, kid);
      forall key ensures TrustedAs(keys, kid, key) <==>
                         if keys[0].kid == kid then keys[0] == key else TrustedAs(rest, kid, key) {
        TrustedCons(keys, kid, key);
      }
    }
  }

  lemma TrustedCons(keys: seq<TrustedKey>, kid: string, key: TrustedKey)
    requires keys != []
    ensures TrustedAs(keys, kid, key) <==> if keys[0].kid == kid then keys[0] == key else TrustedAs(keys[1..], kid, key)
  {
    var rest := keys[1..];
    if TrustedAs(keys, kid, key) {
      var i :| 0 <= i < |keys| && keys[i] == key && key.kid == kid && forall j :: 0 <= j < i ==> keys[j].kid != kid;
      if keys[0].kid != kid {
        assert rest[i - 1] == key;
        assert forall j :: 0 <= j < i - 1 ==> rest[j] == keys[j + 1];
      }
    }
    if keys[0].kid != kid && TrustedAs(rest, kid, key) {
      var i :| 0 <= i < |rest| && rest[i] == key && key.kid == kid && forall j :: 0 <= j < i ==> rest[j].kid != kid;
      assert keys[i + 1] == key;
      assert forall j :: 0 < j < i + 1 ==> keys[j] == rest[j - 1];
    }
  }

  lemma ClaimIs(p: map<string, Value>, field: string, s: string)
    ensures Claim(p, field) == Some(s) <==> IsString(p, field, s) && s != ""
    ensures StrMember(p, field) == Some(s) <==> IsString(p, field, s)
  {
  }

  lemma CountedIs(p: map<string, Value>, field: string, n: int)
    ensures IntMember(p, field) == n <==> Counted(p, field, n)
  {
  }

  ghost predicate Built(p: map<string, Value>, l: License) {
    && Claim(p, "iss") == Some(EXPECTED_ISSUER) && Claim(p, "entitlement") == Some(EXPECTED_ENTITLEMENT)
    && ("exp" in p ==> p["exp"] == Null)
    && Claim(p, "license_id") == Some(l.licenseId) && Claim(p, "sub") == Some(l.sub)
    && Claim(p, "skill_id") == Some(l.skillId) && Claim(p, "version_constraint") == Some(l.versionConstraint)
    && Claim(p, "device_id") == Some(l.deviceId) && StrMember(p, "device_binding") == l.deviceBinding
    && IntMember(p, "max_devices") == l.maxDevices && IntMember(p, "iat") == l.iat
  }

  lemma BuiltIsLicensed(p: map<string, Value>, l: License)
    ensures Built(p, l) <==> Licensed(p, l)
  {
    hide Claim, StrMember, IntMember, Counted, IsString;
    ClaimIs(p, "iss", EXPECTED_ISSUER);
    ClaimIs(p, "entitlement", EXPECTED_ENTITLEMENT);
    ClaimIs(p, "license_id", l.licenseId);
    ClaimIs(p, "sub", l.sub);
    ClaimIs(p, "skill_id", l.skillId);
    ClaimIs(p, "version_constraint", l.versionConstraint);
    ClaimIs(p, "device_id", l.deviceId);
    CountedIs(p, "max_devices", l.maxDevices);
    CountedIs(p, "iat", l.iat);
    forall s ensures StrMember(p, "device_binding") == Some(s) <==> IsString(p, "device_binding", s) {
      ClaimIs(p, "device_binding", s);
    }
    BindingIs(StrMember(p, "device_binding"), l.deviceBinding);
  }

  lemma BindingIs(a: Option<string>, b: Option<string>)
    ensures a == b <==> forall s :: b == Some(s) <==> a == Some(s)
  {
    if a.Some? { assert a == Some(a.value); }
    if b.Some? { assert b == Some(b.value); }
  }

  lemma BuildsLicensed(p: map<string, Value>, kid: string, alg: SigAlg, l: License)
    ensures BuildLicense(p, kid, alg) == Verified(l) <==> Licensed(p, l) && l.kid == kid && l.alg == alg
  {
    BuiltIsLicensed(p, l);
    hide Claim, Licensed;
    NothingMissing(p, REQUIRED);
    assert REQUIRED[0] == "license_id" && REQUIRED[1] == "sub" && REQUIRED[2] == "skill_id";
    assert REQUIRED[3] == "version_constraint" && REQUIRED[4] == "device_id";
  }

  lemma {:induction false} NothingMissing(p: map<string, Value>, fields: seq<string>)
    ensures FirstMissing(p, fields).None? <==> forall i :: 0 <= i < |fields| ==> Claim(p, fields[i]).Some?
  {
    if fields != [] {
      NothingMissing(p, fields[1..]);
      assert forall i :: 0 < i < |fields| ==> fields[i] == fields[1..][i - 1];
    }
  }

  lemma NotNone(alg: SigAlg)
    ensures !EqIgnoreCase(alg.JwsName(), "none")
  {
  }

  lemma SplitThree(header: string, payload: string, sig: string)
    requires '.' !in header && '.' !in payload && '.' !in sig
    ensures Split(header + "." + payload + "." + sig, '.') == [header, payload, sig]
  {
    SplitPlain(sig, '.');
    SplitLeading(payload, sig, '.');
    SplitLeading(header, payload + "." + sig, '.');
    assert header + "." + payload + "." + sig == header + ['.'] + (payload + "." + sig);
  }

  lemma ThreeParts(token: string)
    requires |Split(token, '.')| == 3
    ensures var p := Split(token, '.');
            token == p[0] + "." + p[1] + "." + p[2] && '.' !in p[0] && '.' !in p[1] && '.' !in p[2]
  {
    SplitJoins(token, '.');
    var p := Split(token, '.');
    assert p[1..][1..] == [p[2]] && p[1..][0] == p[1];
    assert Joined(p[1..], '.') == p[1] + ['.'] + p[2];
    assert p[0] in p && p[1] in p && p[2] in p;
    assert token == p[0] + ['.'] + (p[1] + ['.'] + p[2]);
  }

  lemma AcceptedIsSigned(c: Crypto, token: string, keys: seq<TrustedKey>, l: License)
    returns (header: string, payload: string, sig: string, key: TrustedKey)
    requires VerifyLicense(c, token, keys) == Verified(l)
    ensures Framed(token, header, payload, sig) && TrustedAs(keys, l.kid, key)
    ensures Signed(c, header, payload, sig, key, l)
  {
    hide Licensed, BuildLicense, EqIgnoreCase, Split, TrustedAs, FindKey, StrMember, IsString;
    ThreeParts(token);
    var parts := Split(token, '.');
    header, payload, sig := parts[0], parts[1], parts[2];
    var kid := StrMember(c.json(header).value, "kid").value;
    key := FindKey(keys, kid).value;
    FindTrusted(keys, kid);
    HeaderIs(c.json(header).value, kid, key.alg);
    BuildsLicensed(c.json(payload).value, kid, key.alg, l);
  }

  lemma SignedIsAccepted(c: Crypto, token: string, keys: seq<TrustedKey>, l: License, header: string, payload: string,
                         sig: string, key: TrustedKey)
    requires Framed(token, header, payload, sig) && TrustedAs(keys, l.kid, key)
    requires Signed(c, header, payload, sig, key, l)
    ensures VerifyLicense(c, token, keys) == Verified(l)
  {
    hide Licensed, BuildLicense, EqIgnoreCase, Split, TrustedAs, FindKey, StrMember, IsString;
    SplitThree(header, payload, sig);
    NotNone(l.alg);
    FindTrusted(keys, l.kid);
    HeaderIs(c.json(header).value, l.kid, l.alg);
    BuildsLicensed(c.json(payload).value, l.kid, l.alg, l);
  }

  /** A license is accepted exactly when it is genuine. */
  lemma VerifiedIffGenuine(c: Crypto, token: string, keys: seq<TrustedKey>, l: License)
    ensures VerifyLicense(c, token, keys) == Verified(l) <==> Genuine(c, token, keys, l)
  {
    hide VerifyLicense, Framed, Signed, TrustedAs;
    if VerifyLicense(c, token, keys) == Verified(l) {
      var header, payload, sig, key := AcceptedIsSigned(c, token, keys, l);
    }
    if header: string, payload: string, sig: string, key: TrustedKey :|
      Framed(token, header, payload, sig) && TrustedAs(keys, l.kid, key) && Signed(c, header, payload, sig, key, l)
    {
      SignedIsAccepted(c, token, keys, l, header, payload, sig, key);
    }
  }

  lemma HeaderIs(header: map<string, Value>, kid: string, alg: SigAlg)
    ensures StrMember(header, "typ") == Some(LICENSE_TYP) <==> IsString(header, "typ", "hp-lic+jws")
    ensures StrMember(header, "kid") == Some(kid) <==> IsString(header, "kid", kid)
    ensures StrMember(header, "alg") == Some(alg.JwsName())
            <==> IsString(header, "alg", if alg.Es256? then "ES256" else "EdDSA")
  {
  }

  /** A license that verifies keeps verifying, with the same content, through any further insertions of
      other kids until `max` distinct ones have been inserted since its own kid's last insertion; from
      then on it is rejected as unknown. */
  lemma LicenseLifetime(c: Crypto, token: string, before: seq<TrustedKey>, key: TrustedKey, since: seq<TrustedKey>,
                        later: seq<TrustedKey>, max: nat)
    requires key.kid !in Kids(since) && key.kid !in Kids(later)
    requires var v := VerifyLicense(c, token, Window(before + [key] + since, max));
             v.Verified? && v.license.kid == key.kid
    ensures VerifyLicense(c, token, Window(before + [key] + since + later, max)) ==
            if max == 0 || |Kids(since + later)| < max
            then VerifyLicense(c, token, Window(before + [key] + since, max))
            else Rejected(UnknownKid)
  {
    hide Window, BuildLicense, EqIgnoreCase, Split;
    var l := VerifyLicense(c, token, Window(before + [key] + since, max)).license;
    FoundUntil(before, key, since, max);
    FoundUntil(before, key, since + later, max);
    assert before + [key] + since + later == before + [key] + (since + later);
    VerifyKeeps(c, token, Window(before + [key] + since, max), l);
  }

  /** The kid of an accepted license is its header's. */
  lemma VerifyKeeps(c: Crypto, token: string, keys: seq<TrustedKey>, l: License)
    requires VerifyLicense(c, token, keys) == Verified(l)
    ensures var parts := Split(token, '.');
            |parts| == 3 && c.json(parts[0]).Some? && StrMember(c.json(parts[0]).value, "kid") == Some(l.kid)
  {
    hide Licensed, Split, EqIgnoreCase;
    var parts := Split(token, '.');
    var kid := StrMember(c.json(parts[0]).value, "kid").value;
    BuildsLicensed(c.json(parts[1]).value, kid, FindKey(keys, kid).value.alg, l);
  }
}
