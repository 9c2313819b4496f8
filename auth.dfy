/**
 * Bearer tokens (`src/auth/token.go`). The JSON Web Token library is seen
 * through three functions: signing a claim set, decoding a token's header and
 * claims, and checking a token's signature against a key. HS256 is the HMAC
 * with SHA-256 of section 3.2 of RFC 7518.
 */
module Auth {
  import opened Wrappers
  import opened GoStrings
  import Strconv

  /** The family of a token header's `alg`: HMAC (HS256, HS384, HS512) or any other method. */
  datatype SigningMethod = Hmac(alg: string) | Other(alg: string)

  const HS256: SigningMethod := Hmac("HS256")

  /** A claim as the JSON decoder gives it back. */
  datatype ClaimValue = Bool(b: bool) | Number(n: int) | Text(s: string)

  type Claims = map<string, ClaimValue>

  /** A token's header method and its claims, before any check. */
  datatype Decoded = Decoded(signingMethod: SigningMethod, claims: Claims)

  /** The JWT library. */
  datatype Jwt = Jwt(
    sign: (SigningMethod, Claims, string) -> string,
    decode: string -> Option<Decoded>,
    signatureOk: (string, string) -> bool)
  {
    /**
     * What is assumed of the library: a signed token decodes to what was
     * signed and carries a valid signature for the signing key; it is
     * dot-separated base64, so without spaces; the empty string is malformed.
     */
    ghost predicate Sound() {
      && (forall m, c, k :: decode(sign(m, c, k)) == Some(Decoded(m, c)))
      && (forall m, c, k :: signatureOk(sign(m, c, k), k))
      && (forall m, c, k :: ' ' !in sign(m, c, k))
      && decode("") == None
    }
  }

  /** The library and `config.SecretKey`, fixed when the process starts. */
  datatype Config = Config(jwt: Jwt, secretKey: string)

  /** How long an issued token is valid, in seconds. */
  const ValidFor: int := 6 * 60 * 60

  const MalformedToken: string := "token contains an invalid number of segments"
  const ExpiredToken: string := "Token is expired"
  const UsedBeforeIssued: string := "Token used before issued"
  const NotValidYet: string := "Token is not valid yet"
  const InvalidSignature: string := "signature is invalid"
  const InvalidToken: string := "token inválido"

  /**
   * `extractToken`: the `Authorization` header (the empty string when it is
   * absent) split on single spaces; the second piece when there are exactly
   * two, otherwise the empty string. The scheme word is not inspected.
   */
  function ExtractToken(header: string): (token: string)
    ensures Count(header, ' ') != 1 ==> token == ""
    ensures Count(header, ' ') == 1 ==> ' ' !in token && exists w :: ' ' !in w && header == w + [' '] + token
  {
    var parts := Split(header, ' ');
    if |parts| == 2 then
      assert header == parts[0] + [' '] + parts[1] by {
        assert Join(parts, ' ') == parts[0] + [' '] + Join(parts[1..], ' ');
      }
      parts[1]
    else ""
  }

  /** Any header of two space-free words yields its second word. */
  lemma {:induction false} ExtractFromTwoWords(scheme: string, token: string)
    requires ' ' !in scheme && ' ' !in token
    ensures ExtractToken(scheme + " " + token) == token
  {
    SplitTwoWords(scheme, token, ' ');
  }

  /** An absent header, a scheme without a token, and a token with a space in it all yield no token. */
  lemma {:induction false} ExtractTokenRejects(scheme: string, a: string, b: string)
    requires ' ' !in scheme && ' ' !in a && ' ' !in b
    ensures ExtractToken("") == ""
    ensures ExtractToken(scheme) == ""
    ensures ExtractToken(scheme + " " + a + " " + b) == ""
  {
    SplitNoSeparator("", ' ');
    SplitNoSeparator(scheme, ' ');
    assert scheme + " " + a + " " + b == scheme + [' '] + (a + [' '] + b);
    SplitFirstWord(scheme, a + [' '] + b, ' ');
    SplitTwoWords(a, b, ' ');
  }

  /** The scheme word is not inspected. */
  lemma ExtractTokenAnyScheme()
    ensures ExtractToken("Token abc") == "abc"
  {
    assert "Token" + " " + "abc" == "Token abc";
    ExtractFromTwoWords("Token", "abc");
  }

  /** The claims `CreateToken` puts in a token: exactly `authorized`, `exp` and `usuarioId`. */
  function IssuedClaims(usuarioId: nat, now: int): (c: Claims)
    ensures c.Keys == {"authorized", "exp", "usuarioId"}
    ensures c["authorized"] == Bool(true) && c["exp"] == Number(now + ValidFor) && c["usuarioId"] == Number(usuarioId)
  {
    map["authorized" := Bool(true), "exp" := Number(now + ValidFor), "usuarioId" := Number(usuarioId)]
  }

  /**
   * `CreateToken`: the claims filled in one by one, then signed with HS256 and
   * the secret key at time `now` (Unix seconds).
   */
  method CreateToken(config: Config, usuarioId: nat, now: int) returns (token: string)
    ensures token == config.jwt.sign(HS256, IssuedClaims(usuarioId, now), config.secretKey)
  {
    var permissions: Claims := map[];
    permissions := permissions["authorized" := Bool(true)];
    permissions := permissions["exp" := Number(now + ValidFor)];
    permissions := permissions["usuarioId" := Number(usuarioId)];
    token := config.jwt.sign(HS256, permissions, config.secretKey);
  }

  /** `retornarChaveDeVerificacao`: the secret key for an HMAC token, an error for any other method. */
  function VerificationKey(config: Config, token: Decoded): (r: Result<string, string>)
    ensures r.Ok? <==> token.signingMethod.Hmac?
    ensures r.Ok? ==> r.value == config.secretKey
  {
    if token.signingMethod.Hmac? then Ok(config.secretKey)
    else Err("Metodo de assinatura inesperado! " + token.signingMethod.alg)
  }

  /**
   * One of the library's time checks on a claim: it passes when the claim is
   * absent, not numeric, or 0, and otherwise when `ok` holds of its value.
   */
  predicate TimeCheck(claims: Claims, name: string, ok: int -> bool) {
    name in claims && claims[name].Number? && claims[name].n != 0 ==> ok(claims[name].n)
  }

  /**
   * `MapClaims.Valid` at time `now`: `exp`, `iat` and `nbf` are checked in
   * that order and each failure overwrites the message, so the last one to
   * fail is reported.
   */
  function TimeError(claims: Claims, now: int): (err: Option<string>)
    ensures err.None? <==> TimeCheck(claims, "exp", n => now <= n) && TimeCheck(claims, "iat", n => now >= n)
                           && TimeCheck(claims, "nbf", n => now >= n)
    ensures !TimeCheck(claims, "nbf", n => now >= n) ==> err == Some(NotValidYet)
  {
    if !TimeCheck(claims, "nbf", n => now >= n) then Some(NotValidYet)
    else if !TimeCheck(claims, "iat", n => now >= n) then Some(UsedBeforeIssued)
    else if !TimeCheck(claims, "exp", n => now <= n) then Some(ExpiredToken)
    else None
  }

  /** A parsed token, as `jwt.Parse` returns it. */
  datatype Token = Token(signingMethod: SigningMethod, claims: Claims, valid: bool)

  /**
   * `jwt.Parse(s, retornarChaveDeVerificacao)` at time `now`. A key-function
   * error is returned at once; otherwise the claims are checked and then the
   * signature, whose failure overwrites any time error's message.
   */
  function Parse(config: Config, s: string, now: int): (r: Result<Token, string>)
    ensures r.Ok? <==> exists d :: config.jwt.decode(s) == Some(d) && d.signingMethod.Hmac?
                                   && TimeError(d.claims, now).None? && config.jwt.signatureOk(s, config.secretKey)
    ensures r.Ok? ==> r.value.valid && Some(Decoded(r.value.signingMethod, r.value.claims)) == config.jwt.decode(s)
    ensures (config.jwt.decode(s).Some? && config.jwt.decode(s).value.signingMethod.Hmac?
             && !config.jwt.signatureOk(s, config.secretKey)) ==> r == Err(InvalidSignature)
  {
    match config.jwt.decode(s)
    case None => Err(MalformedToken)
    case Some(d) =>
      match VerificationKey(config, d)
      case Err(e) => Err(e)
      case Ok(key) =>
        if !config.jwt.signatureOk(s, key) then Err(InvalidSignature)
        else if TimeError(d.claims, now).Some? then Err(TimeError(d.claims, now).value)
        else Ok(Token(d.signingMethod, d.claims, true))
  }

  /** `TokenValidation`: no error exactly when the header's token parses and is valid. */
  function TokenValidation(config: Config, header: string, now: int): (err: Option<string>)
    ensures err.None? <==> Parse(config, ExtractToken(header), now).Ok? && Parse(config, ExtractToken(header), now).value.valid
  {
    match Parse(config, ExtractToken(header), now)
    case Err(e) => Some(e)
    case Ok(t) => if t.valid then None else Some(InvalidToken)
  }

  /**
   * `fmt.Sprintf("%.0f", claim)`: an integer in decimal; for a boolean or a
   * string, `fmt`'s bad-verb text naming the operand's type and value; for an
   * absent claim, the text for a nil operand.
   */
  function FormatFloat0(claim: Option<ClaimValue>): string {
    match claim
    case Some(Number(n)) => if n < 0 then "-" + Strconv.FormatUint(-n) else Strconv.FormatUint(n)
    case Some(Bool(b)) => "%!f(bool=" + (if b then "true" else "false") + ")"
    case Some(Text(t)) => "%!f(string=" + t + ")"
    case None => "%!f(<nil>)"
  }

  function UserIdText(claims: Claims): string {
    FormatFloat0(if "usuarioId" in claims then Some(claims["usuarioId"]) else None)
  }

  /** The decimal text of the claim parses back exactly when the claim is a number that fits in 64 bits. */
  lemma UserIdTextParses(claims: Claims)
    ensures var r := Strconv.ParseUint(UserIdText(claims), 64);
            (r.Ok? <==> "usuarioId" in claims && claims["usuarioId"].Number?
                        && 0 <= claims["usuarioId"].n <= Strconv.MaxUint(64))
            && (r.Ok? ==> r.value == claims["usuarioId"].n)
  {
    var text := UserIdText(claims);
    Strconv.ParseUintSpec(text, 64);
    if "usuarioId" in claims && claims["usuarioId"].Number? && claims["usuarioId"].n >= 0 {
      Strconv.FormatParseRoundTrip(claims["usuarioId"].n, 64);
    } else {
      assert !Strconv.IsDigit(text[0]);
    }
  }

  /** The `usuarioId` claim read back through its decimal text, as a 64-bit unsigned number. */
  function UserIdClaim(claims: Claims): (r: Result<nat, string>)
    ensures r.Ok? <==> "usuarioId" in claims && claims["usuarioId"].Number?
                       && 0 <= claims["usuarioId"].n <= Strconv.MaxUint(64)
    ensures r.Ok? ==> r.value == claims["usuarioId"].n
    ensures r.Err? ==> && Strconv.ParseUint(UserIdText(claims), 64).Err?
                       && r.error == Strconv.ErrorText(UserIdText(claims), Strconv.ParseUint(UserIdText(claims), 64).error)
  {
    var text := UserIdText(claims);
    UserIdTextParses(claims);
    match Strconv.ParseUint(text, 64)
    case Ok(id) => Ok(id)
    case Err(e) => Err(Strconv.ErrorText(text, e))
  }

  /** A text `usuarioId` claim is refused with the syntax error on `fmt`'s bad-verb text, which quotes the claim. */
  lemma TextIdClaimRefused(claims: Claims, t: string)
    requires "usuarioId" in claims && claims["usuarioId"] == Text(t)
    ensures UserIdClaim(claims) == Err(Strconv.ErrorText("%!f(string=" + t + ")", Strconv.ErrSyntax))
  {
    var text := UserIdText(claims);
    assert text == "%!f(string=" + t + ")";
    Strconv.ParseUintSpec(text, 64);
    assert !Strconv.IsDigit(text[0]);
  }

  /** `ExtractUserID`: the token's user id, or an error (the source returns it with id 0). */
  function ExtractUserID(config: Config, header: string, now: int): (r: Result<nat, string>)
    ensures r.Ok? ==> TokenValidation(config, header, now).None?
    ensures r.Ok? <==> Parse(config, ExtractToken(header), now).Ok?
                       && UserIdClaim(Parse(config, ExtractToken(header), now).value.claims).Ok?
    ensures r.Ok? ==> r.value == Parse(config, ExtractToken(header), now).value.claims["usuarioId"].n
    ensures Parse(config, ExtractToken(header), now).Err? ==> r == Err(Parse(config, ExtractToken(header), now).error)
    ensures Parse(config, ExtractToken(header), now).Ok? ==> r == UserIdClaim(Parse(config, ExtractToken(header), now).value.claims)
  {
    match Parse(config, ExtractToken(header), now)
    case Err(e) => Err(e)
    case Ok(t) => if t.valid then UserIdClaim(t.claims) else Err(InvalidToken)
  }

  /**
   * Issue/extract round trip: a token issued for `usuarioId` at `issuedAt`,
   * presented in a two-word header before it expires, yields `usuarioId`.
   */
  lemma {:induction false} IssueExtractRoundTrip(config: Config, usuarioId: nat, issuedAt: int, now: int, scheme: string)
    requires config.jwt.Sound()
    requires usuarioId <= Strconv.MaxUint(64)
    requires issuedAt <= now <= issuedAt + ValidFor
    requires ' ' !in scheme
    ensures var token := config.jwt.sign(HS256, IssuedClaims(usuarioId, issuedAt), config.secretKey);
            TokenValidation(config, scheme + " " + token, now).None?
            && ExtractUserID(config, scheme + " " + token, now) == Ok(usuarioId)
  {
    var token := config.jwt.sign(HS256, IssuedClaims(usuarioId, issuedAt), config.secretKey);
    ExtractFromTwoWords(scheme, token);
    assert config.jwt.decode(token) == Some(Decoded(HS256, IssuedClaims(usuarioId, issuedAt)));
    assert config.jwt.signatureOk(token, config.secretKey);
  }

  /** Once its six hours have passed an issued token is refused by both checks. */
  lemma ExpiredTokenRefused(config: Config, usuarioId: nat, issuedAt: int, now: int, scheme: string)
    requires config.jwt.Sound()
    requires issuedAt + ValidFor != 0 && now > issuedAt + ValidFor
    requires ' ' !in scheme
    ensures var token := config.jwt.sign(HS256, IssuedClaims(usuarioId, issuedAt), config.secretKey);
            TokenValidation(config, scheme + " " + token, now).Some?
            && ExtractUserID(config, scheme + " " + token, now).Err?
  {
    var token := config.jwt.sign(HS256, IssuedClaims(usuarioId, issuedAt), config.secretKey);
    ExtractFromTwoWords(scheme, token);
    assert config.jwt.decode(token) == Some(Decoded(HS256, IssuedClaims(usuarioId, issuedAt)));
  }

  /** A token whose header names a non-HMAC method fails validation and id extraction alike. */
  lemma NonHmacRefused(config: Config, header: string, now: int)
    requires config.jwt.decode(ExtractToken(header)).Some?
    requires config.jwt.decode(ExtractToken(header)).value.signingMethod.Other?
    ensures TokenValidation(config, header, now).Some?
    ensures ExtractUserID(config, header, now).Err?
  {
  }

  /** A header without exactly one space carries no token, and is refused. */
  lemma MalformedHeaderRefused(config: Config, header: string, now: int)
    requires config.jwt.Sound()
    requires Count(header, ' ') != 1
    ensures TokenValidation(config, header, now).Some?
    ensures ExtractUserID(config, header, now).Err?
  {
  }
}
