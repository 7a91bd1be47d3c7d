/** The identity extractor: reads the `Authorization` header, verifies the
    bearer token against the issuer's key set and yields the token's claims;
    and `check_permission` on those claims. Token decoding, key-set parsing
    and signature verification are library calls and enter as `Oracles`. */
module Identity {
  import opened Wrappers
  import opened DomainError
  import opened Permissions
  import opened Utf8
  import opened Text
  import opened Timestamp
  import opened Http
  import opened JwkCache

  /** The claims the service reads from a verified token. */
  datatype IdentityClaims = IdentityClaims(sub: Option<string>, permissions: Option<set<string>>)

  /** `IdentityClaims::check_permission`. */
  function CheckPermission(claims: IdentityClaims, p: Permission): (r: Result<Unit, Error>)
    ensures r.Ok? <==> claims.permissions.Some? && ToString(p) in claims.permissions.value
    ensures r.Err? ==> r.error == InvalidPermission
  {
    match claims.permissions
    case None => Err(InvalidPermission)
    case Some(granted) => if ToString(p) in granted then Ok(Unit) else Err(InvalidPermission)
  }

  // ---- The header ----

  /** `HeaderValue::to_str`: succeeds when every byte is visible ASCII or a
      horizontal tab. */
  function HeaderToStr(value: seq<byte>): (r: Option<string>)
    ensures r.Some? <==> forall i :: 0 <= i < |value| ==> (32 <= value[i] < 127 || value[i] == 9)
    ensures r.Some? ==> |r.value| == |value| && forall i :: 0 <= i < |value| ==> r.value[i] as int == value[i] as int
  {
    if forall i :: 0 <= i < |value| ==> (32 <= value[i] < 127 || value[i] == 9) then
      Some(seq(|value|, i requires 0 <= i < |value| => value[i] as char))
    else
      None
  }

  /** The tokenising steps: split on single spaces, exactly two pieces, the
      first exactly `Bearer` (case-sensitive). */
  function BearerToken(header: string): Option<string> {
    var parts := Split(header, ' ');
    if |parts| != 2 then None
    else if parts[0] != "Bearer" then None
    else Some(parts[1])
  }

  /** A header yields a token exactly when it is `Bearer`, one space, and a
      token holding no space. */
  lemma BearerTokenIff(header: string, token: string)
    ensures BearerToken(header) == Some(token) <==> header == "Bearer " + token && ' ' !in token
  {
    if BearerToken(header) == Some(token) {
      var parts := Split(header, ' ');
      SplitJoin(header, ' ');
      assert parts == ["Bearer", token];
      assert Join(parts[1..], ' ') == token;
    }
    if header == "Bearer " + token && ' ' !in token {
      var parts := ["Bearer", token];
      assert NoPieceHas(parts, ' ');
      assert Join(parts[1..], ' ') == token;
      assert Join(parts, ' ') == "Bearer" + [' '] + token;
      assert "Bearer" + [' '] + token == header;
      JoinSplit(parts, ' ');
    }
  }

  /** Typical refusals: a doubled space gives three pieces; the scheme is
      case-sensitive; a bare scheme is one piece. */
  lemma MalformedHeaders()
    ensures BearerToken("Bearer  x") == None
    ensures BearerToken("bearer x") == None
    ensures BearerToken("Bearer") == None
    ensures BearerToken("Bearer x") == Some("x")
  {
    BearerTokenIff("Bearer  x", " x");
    BearerTokenIff("bearer x", "x");
    assert "bearer x" != "Bearer " + "x";
    BearerTokenIff("Bearer x", "x");
    assert "Bearer x" == "Bearer " + "x";
    assert Split("Bearer", ' ') == ["Bearer"];
  }

  // ---- Token verification, as oracles ----

  /** The JOSE header of the token (section 4.1.4 of RFC 7515: `kid`). */
  datatype JwtHeader = JwtHeader(kid: Option<string>)

  /** `jsonwebtoken::jwk::AlgorithmParameters`. */
  datatype AlgorithmParameters =
    | RSA(n: string, e: string)
    | EllipticCurve
    | OctetKeyPair
    | OctetKey

  datatype Jwk = Jwk(kid: Option<string>, algorithm: AlgorithmParameters)

  /** `JwkSet::find`: the first key whose `kid` matches. */
  function FindKey(keys: seq<Jwk>, kid: string): (r: Option<Jwk>)
    ensures r.Some? ==> r.value in keys && r.value.kid == Some(kid)
    ensures r.Some? ==>
      exists i :: 0 <= i < |keys| && keys[i] == r.value && forall j :: 0 <= j < i ==> keys[j].kid != Some(kid)
    ensures r.None? ==> forall k :: k in keys ==> k.kid != Some(kid)
  {
    if |keys| == 0 then None
    else if keys[0].kid == Some(kid) then Some(keys[0])
    else FindKey(keys[1..], kid)
  }

  /** The RS256 verifier settings (section 3.3 of RFC 7518), with the
      required issuer and audience of sections 4.1.1 and 4.1.3 of RFC 7519. */
  datatype Validation = Validation(algorithm: string, issuers: set<string>, audiences: set<string>)

  datatype DecodingKey = DecodingKey(n: string, e: string)

  datatype Oracles = Oracles(
    /** `jsonwebtoken::decode_header`. */
    decodeHeader: string -> Option<JwtHeader>,
    /** `serde_json::from_str::<JwkSet>`. */
    parseKeySet: string -> Option<seq<Jwk>>,
    /** `DecodingKey::from_rsa_components`. */
    rsaKey: (string, string) -> Option<DecodingKey>,
    /** `jsonwebtoken::decode`: signature, issuer, audience and expiry checks. */
    decode: (string, DecodingKey, Validation) -> Option<IdentityClaims>)

  /** `OAUTH_DOMAIN` and `OAUTH_AUDIENCE`. */
  datatype Env = Env(oauthDomain: Option<string>, oauthAudience: Option<string>)

  function Rs256Validation(domain: string, audience: string): Validation {
    Validation("RS256", {domain + "/"}, {audience})
  }

  /** The key-set provider the extractor consults. */
  type KeySetProvider = (Cache, Instant, FetchOutcome) -> Served

  datatype Extraction = Extraction(cache: Cache, result: Result<IdentityClaims, Response>)

  /** The verification steps after the key set is in hand. */
  function VerifyWithKeySet(o: Oracles, env: Env, token: string, kid: string, document: string)
    : (r: Result<IdentityClaims, Response>)
    ensures r.Err? ==> r.error == UnauthorizedResponse()
    ensures r.Ok? <==>
      && o.parseKeySet(document).Some?
      && FindKey(o.parseKeySet(document).value, kid).Some?
      && FindKey(o.parseKeySet(document).value, kid).value.algorithm.RSA?
      && env.oauthDomain.Some? && env.oauthAudience.Some?
      && var rsa := FindKey(o.parseKeySet(document).value, kid).value.algorithm;
         && o.rsaKey(rsa.n, rsa.e).Some?
         && o.decode(token, o.rsaKey(rsa.n, rsa.e).value,
                     Rs256Validation(env.oauthDomain.value, env.oauthAudience.value)).Some?
    ensures r.Ok? ==>
      var rsa := FindKey(o.parseKeySet(document).value, kid).value.algorithm;
      r.value == o.decode(token, o.rsaKey(rsa.n, rsa.e).value,
                          Rs256Validation(env.oauthDomain.value, env.oauthAudience.value)).value
  {
    match o.parseKeySet(document)
    case None => Err(UnauthorizedResponse())
    case Some(keys) =>
      match FindKey(keys, kid)
      case None => Err(UnauthorizedResponse())
      case Some(jwk) =>
        match jwk.algorithm
        case RSA(n, e) =>
          (match env.oauthDomain
           case None => Err(UnauthorizedResponse())
           case Some(domain) =>
             match env.oauthAudience
             case None => Err(UnauthorizedResponse())
             case Some(audience) =>
               match o.rsaKey(n, e)
               case None => Err(UnauthorizedResponse())
               case Some(key) =>
                 match o.decode(token, key, Rs256Validation(domain, audience))
                 case None => Err(UnauthorizedResponse())
                 case Some(claims) => Ok(claims))
        case _ => Err(UnauthorizedResponse())
  }

  /** `FromRequestParts for IdentityClaims`. Checks run in order and stop at
      the first failure; the key-set provider is consulted only once the
      token's `kid` is known. */
  function Extract(o: Oracles, env: Env, provider: KeySetProvider, cache: Cache, now: Instant,
                   fetch: FetchOutcome, authorization: Option<seq<byte>>)
    : (x: Extraction)
    ensures x.result.Err? ==> x.result.error == UnauthorizedResponse()
    ensures x.result.Ok? ==>
      && authorization.Some?
      && HeaderToStr(authorization.value).Some?
      && var token := BearerToken(HeaderToStr(authorization.value).value);
         && token.Some?
         && o.decodeHeader(token.value).Some?
         && o.decodeHeader(token.value).value.kid.Some?
         && x.result == VerifyWithKeySet(o, env, token.value, o.decodeHeader(token.value).value.kid.value,
                                         provider(cache, now, fetch).content)
    ensures x.cache != cache ==> x.cache == provider(cache, now, fetch).cache
    ensures authorization.None? || HeaderToStr(authorization.value).None?
            || BearerToken(HeaderToStr(authorization.value).value).None? ==>
      x == Extraction(cache, Err(UnauthorizedResponse()))
    ensures authorization.Some? && HeaderToStr(authorization.value).Some?
            && BearerToken(HeaderToStr(authorization.value).value).Some? ==>
      var token := BearerToken(HeaderToStr(authorization.value).value).value;
      var header := o.decodeHeader(token);
      if header.Some? && header.value.kid.Some? then
        var served := provider(cache, now, fetch);
        x == Extraction(served.cache, VerifyWithKeySet(o, env, token, header.value.kid.value, served.content))
      else
        x == Extraction(cache, Err(UnauthorizedResponse()))
  {
    match authorization
    case None => Extraction(cache, Err(UnauthorizedResponse()))
    case Some(bytes) =>
      match HeaderToStr(bytes)
      case None => Extraction(cache, Err(UnauthorizedResponse()))
      case Some(header) =>
        match BearerToken(header)
        case None => Extraction(cache, Err(UnauthorizedResponse()))
        case Some(token) =>
          match o.decodeHeader(token)
          case None => Extraction(cache, Err(UnauthorizedResponse()))
          case Some(jwtHeader) =>
            match jwtHeader.kid
            case None => Extraction(cache, Err(UnauthorizedResponse()))
            case Some(kid) =>
              var served := provider(cache, now, fetch);
              Extraction(served.cache, VerifyWithKeySet(o, env, token, kid, served.content))
  }

  /** A request without the header is refused with 401 and touches no cell. */
  lemma MissingHeaderUnauthorized(o: Oracles, env: Env, provider: KeySetProvider, cache: Cache,
                                  now: Instant, fetch: FetchOutcome)
    ensures Extract(o, env, provider, cache, now, fetch, None) == Extraction(cache, Err(UnauthorizedResponse()))
    ensures UnauthorizedResponse().status == 401
  {
  }

  /** With the source's write-once cells, once the installed key set is older
      than twelve hours every request is refused, whatever its token: the
      provider serves the empty text, which is no key set. */
  lemma ExpiredCacheRefusesEveryToken(o: Oracles, env: Env, doc: string, t: Instant, now: Instant,
                                       fetch: FetchOutcome, authorization: Option<seq<byte>>)
    requires now > t + TwelveHours
    requires o.parseKeySet("").None?
    ensures Extract(o, env, NewAsWritten, Cache(Some(doc), Some(t)), now, fetch, authorization).result.Err?
  {
    RefreshAfterExpiryServesEmpty(doc, t, now, fetch);
  }

  /** With the intended provider, a token whose verification succeeds against
      the freshly fetched key set is accepted after expiry. */
  lemma RefreshedKeySetAccepts(o: Oracles, env: Env, doc: string, t: Instant, now: Instant,
                               text: string, at: Instant, token: string, kid: string)
    requires now > t + TwelveHours
    requires o.decodeHeader(token) == Some(JwtHeader(Some(kid)))
    requires forall i :: 0 <= i < |token| ==> 33 <= token[i] as int < 127
    requires VerifyWithKeySet(o, env, token, kid, text).Ok?
    ensures Extract(o, env, NewIntended, Cache(Some(doc), Some(t)), now, Fetched(text, at),
                    Some(HeaderBytes("Bearer " + token))).result
            == VerifyWithKeySet(o, env, token, kid, text)
  {
    var header := "Bearer " + token;
    assert forall i :: 7 <= i < |header| ==> header[i] == token[i - 7];
    BearerTokenIff(header, token);
    HeaderBytesToStr(header);
  }

  /** The bytes of an ASCII header value. */
  function HeaderBytes(s: string): (bytes: seq<byte>)
    ensures |bytes| == |s|
  {
    seq(|s|, i requires 0 <= i < |s| => (if s[i] as int < 256 then s[i] as int else 0) as byte)
  }

  lemma HeaderBytesToStr(s: string)
    requires forall i :: 0 <= i < |s| ==> 32 <= s[i] as int < 127
    ensures HeaderToStr(HeaderBytes(s)) == Some(s)
  {
    var bytes := HeaderBytes(s);
    var r := HeaderToStr(bytes);
    assert r.Some?;
    assert r.value == s;
  }
}
