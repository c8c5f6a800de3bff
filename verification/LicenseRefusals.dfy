/** Why a license is refused (`license_verify.rs`): the checks in their order, each with its own error, as a
    property of the token, the trusted keys and the claims. */
module LicenseRefusals {
  import opened Text
  import opened Json
  import opened KeyWindow

  ghost predicate Refusal(c: Crypto, token: string, keys: seq<TrustedKey>, e: LicenseError) {
    || (e == MalformedToken && forall header, payload, sig :: !Framed(token, header, payload, sig))
    || exists header: string, payload: string, sig: string ::
         Framed(token, header, payload, sig) && HeaderRefused(c, header, payload, sig, keys, e)
  }

  /** The header must be an object of the license type that names a trusted key. */
  ghost predicate HeaderRefused(c: Crypto, header: string, payload: string, sig: string, keys: seq<TrustedKey>,
                                e: LicenseError)
  {
    match c.json(header)
    case None => e == MalformedHeader
    case Some(h) =>
      if !IsString(h, "typ", "hp-lic+jws") then e == UnexpectedTyp
      else
        || (e == MissingKid && forall kid :: !IsString(h, "kid", kid))
        || (e == UnknownKid
            && exists kid :: IsString(h, "kid", kid) && forall i :: 0 <= i < |keys| ==> keys[i].kid != kid)
        || exists kid: string, key: TrustedKey ::
             IsString(h, "kid", kid) && TrustedAs(keys, kid, key) && KeyRefuses(c, h, header, payload, sig, key, e)
  }

  /** The header must name the key's algorithm, the key must have signed the received bytes, and only then
      is the payload looked at. */
  ghost predicate KeyRefuses(c: Crypto, h: map<string, Value>, header: string, payload: string, sig: string,
                             key: TrustedKey, e: LicenseError)
  {
    if !IsString(h, "alg", if key.alg.Es256? then "ES256" else "EdDSA") then
      if exists a :: IsString(h, "alg", a) && !SpellsNone(a)
      then e.AlgConfusion? && IsString(h, "alg", e.headerAlg) && e.pinned == key.alg
      else e == InsecureAlg
    else
      match c.bytes(sig)
      case None => e == MalformedSignature
      case Some(bytes) =>
        match c.check(key.alg, key.publicKey, header + "." + payload, bytes)
        case Some(why) => e == why
        case None => PayloadRefused(c.json(payload), e)
  }

  predicate SpellsNone(a: string) {
    |a| == 4 && a[0] in "nN" && a[1] in "oO" && a[2] in "nN" && a[3] in "eE"
  }

  const CLAIMS: seq<string> :=
    ["iss", "entitlement", "exp", "license_id", "sub", "skill_id", "version_constraint", "device_id"]

  /** The first claim that is not as it must be. */
  ghost predicate PayloadRefused(payload: Option<map<string, Value>>, e: LicenseError) {
    match payload
    case None => e == MalformedPayload
    case Some(p) =>
      exists i :: 0 <= i < |CLAIMS| && e == InvalidClaims(CLAIMS[i]) && !ClaimHolds(p, CLAIMS[i])
        && forall j :: 0 <= j < i ==> ClaimHolds(p, CLAIMS[j])
  }

  ghost predicate ClaimHolds(p: map<string, Value>, claim: string) {
    if claim == "iss" then IsString(p, claim, "hydropark-licensing")
    else if claim == "entitlement" then IsString(p, claim, "perpetual")
    else if claim == "exp" then "exp" in p ==> p["exp"] == Null
    else exists s :: s != "" && IsString(p, claim, s)
  }

  /** A token is refused for exactly the first check it fails. */
  lemma RejectedIffRefusal(c: Crypto, token: string, keys: seq<TrustedKey>, e: LicenseError)
    ensures VerifyLicense(c, token, keys) == Rejected(e) <==> Refusal(c, token, keys, e)
  {
    hide HeaderRefused, FindKey, BuildLicense, EqIgnoreCase, TrustedAs, StrMember, Split;
    var parts := Split(token, '.');
    if |parts| == 3 && parts[0] != "" && parts[1] != "" && parts[2] != "" {
      ThreeParts(token);
      HeaderExact(c, parts, keys, token, e);
      assert Framed(token, parts[0], parts[1], parts[2]);
    }
    forall header, payload, sig | Framed(token, header, payload, sig) ensures parts == [header, payload, sig] {
      SplitThree(header, payload, sig);
    }
  }

  lemma HeaderExact(c: Crypto, parts: seq<string>, keys: seq<TrustedKey>, token: string, e: LicenseError)
    requires |parts| == 3 && parts == Split(token, '.') && parts[0] != "" && parts[1] != "" && parts[2] != ""
    ensures VerifyLicense(c, token, keys) == Rejected(e) <==> HeaderRefused(c, parts[0], parts[1], parts[2], keys, e)
  {
    hide KeyRefuses, FindKey, VerifyWith, TrustedAs, Split, StrMember, IsString;
    if c.json(parts[0]).Some? {
      var h := c.json(parts[0]).value;
      StringIs(h, "typ");
      StringIs(h, "kid");
      if StrMember(h, "kid").Some? {
        var kid := StrMember(h, "kid").value;
        assert forall k :: IsString(h, "kid", k) <==> k == kid;
        FindTrusted(keys, kid);
        KeyFound(keys, kid);
        if FindKey(keys, kid).Some? {
          KeyExact(c, h, parts, kid, FindKey(keys, kid).value, e);
        }
      }
    }
  }

  lemma StringIs(p: map<string, Value>, field: string)
    ensures forall s :: StrMember(p, field) == Some(s) <==> IsString(p, field, s)
  {
  }

  lemma {:induction false} KeyFound(keys: seq<TrustedKey>, kid: string)
    ensures FindKey(keys, kid).None? <==> forall i :: 0 <= i < |keys| ==> keys[i].kid != kid
  {
    if keys != [] {
      KeyFound(keys[1..], kid);
      assert forall i :: 0 < i < |keys| ==> keys[i] == keys[1..][i - 1];
    }
  }

  lemma KeyExact(c: Crypto, h: map<string, Value>, parts: seq<string>, kid: string, key: TrustedKey, e: LicenseError)
    requires |parts| == 3
    ensures VerifyWith(c, parts, h, kid, key) == Rejected(e)
            <==> KeyRefuses(c, h, parts[0], parts[1], parts[2], key, e)
  {
    hide PayloadRefused, BuildLicense, StrMember, IsString, SpellsNone, EqIgnoreCase;
    StringIs(h, "alg");
    NotNone(key.alg);
    if StrMember(h, "alg").Some? {
      var a := StrMember(h, "alg").value;
      NoneIs(a);
      assert forall b :: IsString(h, "alg", b) <==> b == a;
    }
    if c.json(parts[1]).Some? {
      PayloadExact(c.json(parts[1]).value, kid, key.alg, e);
    }
    PayloadMissing(e);
  }

  lemma PayloadMissing(e: LicenseError)
    ensures PayloadRefused(None, e) <==> e == MalformedPayload
  {
  }

  lemma NoneIs(a: string)
    ensures EqIgnoreCase(a, "none") <==> SpellsNone(a)
  {
    var none := "none";
    assert none[0] == 'n' && none[1] == 'o' && none[2] == 'n' && none[3] == 'e';
    Either("nN", 'n', 'N');
    Either("oO", 'o', 'O');
    Either("eE", 'e', 'E');
  }

  lemma Either(s: string, x: char, y: char)
    requires s == [x, y]
    ensures forall c: char :: c in s <==> c == x || c == y
  {
  }

  lemma PayloadExact(p: map<string, Value>, kid: string, alg: SigAlg, e: LicenseError)
    ensures BuildLicense(p, kid, alg) == Rejected(e) <==> PayloadRefused(Some(p), e)
  {
    hide ClaimHolds, BuildLicense;
    var k := FirstFault(p, kid, alg);
    if k < |CLAIMS| {
      assert InvalidClaims(CLAIMS[k]) == e ==> PayloadRefused(Some(p), e);
    }
  }

  /** The claims before the first fault hold, and the answer is that fault. */
  lemma FirstFault(p: map<string, Value>, kid: string, alg: SigAlg) returns (k: nat)
    ensures k <= |CLAIMS| && forall j :: 0 <= j < k ==> ClaimHolds(p, CLAIMS[j])
    ensures k == |CLAIMS| ==> BuildLicense(p, kid, alg).Verified?
    ensures k < |CLAIMS| ==>
              !ClaimHolds(p, CLAIMS[k]) && BuildLicense(p, kid, alg) == Rejected(InvalidClaims(CLAIMS[k]))
  {
    hide ClaimHolds, Claim;
    assert CLAIMS == ["iss", "entitlement", "exp"] + REQUIRED;
    FixedClaims(p);
    if Claim(p, "iss") != Some(EXPECTED_ISSUER) {
      k := 0;
    } else if Claim(p, "entitlement") != Some(EXPECTED_ENTITLEMENT) {
      k := 1;
    } else if "exp" in p && p["exp"] != Null {
      k := 2;
    } else {
      var m := FirstGap(p, REQUIRED);
      k := 3 + m;
      forall j: nat | j < |REQUIRED| ensures ClaimHolds(p, REQUIRED[j]) <==> Claim(p, REQUIRED[j]).Some? {
        NamedClaim(p, REQUIRED[j]);
      }
      assert forall j :: 3 <= j < |CLAIMS| ==> CLAIMS[j] == REQUIRED[j - 3];
    }
  }

  lemma {:induction false} FirstGap(p: map<string, Value>, fields: seq<string>) returns (m: nat)
    ensures m <= |fields| && forall j :: 0 <= j < m ==> Claim(p, fields[j]).Some?
    ensures if m == |fields| then FirstMissing(p, fields).None?
            else Claim(p, fields[m]).None? && FirstMissing(p, fields) == Some(fields[m])
  {
    m := 0;
    if fields != [] && Claim(p, fields[0]).Some? {
      m := FirstGap(p, fields[1..]);
      assert forall j :: 0 < j < |fields| ==> fields[j] == fields[1..][j - 1];
      m := m + 1;
    }
  }

  lemma FixedClaims(p: map<string, Value>)
    ensures ClaimHolds(p, "iss") <==> Claim(p, "iss") == Some(EXPECTED_ISSUER)
    ensures ClaimHolds(p, "entitlement") <==> Claim(p, "entitlement") == Some(EXPECTED_ENTITLEMENT)
    ensures ClaimHolds(p, "exp") <==> !("exp" in p && p["exp"] != Null)
  {
  }

  lemma NamedClaim(p: map<string, Value>, claim: string)
    requires claim in REQUIRED
    ensures ClaimHolds(p, claim) <==> Claim(p, claim).Some?
  {
    if Claim(p, claim).Some? { ClaimIs(p, claim, Claim(p, claim).value); }
  }
}
