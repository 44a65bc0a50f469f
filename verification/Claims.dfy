/** The closed claim set and its acceptance window, `libs/auth-kit/src/claims.ts`. */
module Claims {
  import opened Common
  import opened Contracts

  /** A decoded JSON member; numbers are split by `Number.isInteger`. */
  datatype Json = Text(text: string) | Whole(whole: int) | Fraction | OtherJson

  /** A JSON object. An absent key is `undefined`. */
  type Payload = map<string, Json>

  datatype SubjectType = User | Service

  datatype JwtClaims = JwtClaims(
    iss: string, sub: string, sty: SubjectType, cid: string, sid: string, iat: int, exp: int)

  datatype Rejection =
    | Malformed | UnsupportedAlgorithm | UnknownKey | BadSignature | Expired
    | NotYetValid | WrongIssuer | BadClaims | Revoked

  const CLAIM_KEYS: set<string> := {"iss", "sub", "sty", "cid", "sid", "iat", "exp"}

  /** Signing side: refuses a payload with a key outside the seven. */
  function AssertExactClaims(payload: Payload): Option<Payload> {
    if payload.Keys <= CLAIM_KEYS then Some(payload) else None
  }

  function SubjectName(sty: SubjectType): string {
    match sty
    case User => "user"
    case Service => "service"
  }

  /** The payload the token service signs. */
  function ToPayload(c: JwtClaims): Payload {
    map["iss" := Text(c.iss), "sub" := Text(c.sub), "sty" := Text(SubjectName(c.sty)), "cid" := Text(c.cid),
        "sid" := Text(c.sid), "iat" := Whole(c.iat), "exp" := Whole(c.exp)]
  }

  predicate NonEmptyText(payload: Payload, key: string) {
    key in payload && payload[key].Text? && payload[key].text != ""
  }

  predicate WholeNumber(payload: Payload, key: string) {
    key in payload && payload[key].Whole?
  }

  /** Verifying side: re-validates every field of a signature-checked payload. */
  function ReadAccessTokenClaims(p: Payload): (r: Result<JwtClaims, Rejection>)
    ensures r.Failure? ==> r.error == BadClaims
  {
    if !(CLAIM_KEYS <= p.Keys) then Failure(BadClaims)
    else if !(p.Keys <= CLAIM_KEYS) then Failure(BadClaims)
    else if !(forall key | key in {"iss", "sub", "cid", "sid"} :: NonEmptyText(p, key)) then Failure(BadClaims)
    else if !(forall key | key in {"iat", "exp"} :: WholeNumber(p, key)) then Failure(BadClaims)
    else if p["sty"] != Text("user") && p["sty"] != Text("service") then Failure(BadClaims)
    else
      assert NonEmptyText(p, "iss") && NonEmptyText(p, "sub") && NonEmptyText(p, "cid") && NonEmptyText(p, "sid");
      assert WholeNumber(p, "iat") && WholeNumber(p, "exp");
      Success(JwtClaims(p["iss"].text, p["sub"].text, if p["sty"] == Text("user") then User else Service,
                        p["cid"].text, p["sid"].text, p["iat"].whole, p["exp"].whole))
  }

  /** Claims a token of this issuer can carry. */
  predicate WellFormed(c: JwtClaims) {
    c.iss != "" && c.sub != "" && c.cid != "" && c.sid != ""
  }

  /** The claim set is closed in both directions: the reader accepts exactly what the signer writes. */
  lemma ReaderInvertsSigner(p: Payload, c: JwtClaims)
    ensures ReadAccessTokenClaims(p) == Success(c) <==> p == ToPayload(c) && WellFormed(c)
    ensures AssertExactClaims(ToPayload(c)) == Some(ToPayload(c))
    ensures AssertExactClaims(p) == None <==>
            exists key :: key in p && key !in {"iss", "sub", "sty", "cid", "sid", "iat", "exp"}
    ensures AssertExactClaims(p) in {None, Some(p)}
  {
    if ReadAccessTokenClaims(p) == Success(c) {
      assert p.Keys == ToPayload(c).Keys;
      forall key | key in CLAIM_KEYS ensures p[key] == ToPayload(c)[key] {
        assert key in {"iss", "sub", "cid", "sid"} ==> NonEmptyText(p, key);
        assert key in {"iat", "exp"} ==> WholeNumber(p, key);
        assert p["sty"] == Text(SubjectName(c.sty));
      }
      assert NonEmptyText(p, "iss") && NonEmptyText(p, "sub") && NonEmptyText(p, "cid") && NonEmptyText(p, "sid");
    }
  }

  /** `exp` has passed, leeway included, at a millisecond instant. */
  predicate ExpiredAt(c: JwtClaims, now: int) {
    c.exp + CLOCK_SKEW_LEEWAY_SECONDS <= now / 1000
  }

  /** The first check that fails, or `None` for an acceptable claim set. */
  function AssertClaimsAcceptable(c: JwtClaims, expectedIssuer: string, now: int): Option<Rejection> {
    var seconds := now / 1000;
    if c.iss != expectedIssuer then Some(WrongIssuer)
    else if c.exp + CLOCK_SKEW_LEEWAY_SECONDS <= seconds then Some(Expired)
    else if c.iat - CLOCK_SKEW_LEEWAY_SECONDS > seconds then Some(NotYetValid)
    else None
  }

  predicate AcceptableAt(c: JwtClaims, issuer: string, now: int) {
    AssertClaimsAcceptable(c, issuer, now) == None
  }

  /**
   * A token with a lifetime of `ttl` issued at the millisecond `issuedAt`, whose `iat` was floored to
   * the second, is over at every instant from `issuedAt` + ttl + leeway on, and not one second before.
   */
  lemma LifetimeIsExact(c: JwtClaims, issuedAt: int, ttl: int, now: int)
    requires c.iat == issuedAt / 1000 && c.exp == c.iat + ttl
    ensures now >= issuedAt + (ttl + CLOCK_SKEW_LEEWAY_SECONDS) * 1000 ==> ExpiredAt(c, now)
    ensures now < issuedAt + (ttl + CLOCK_SKEW_LEEWAY_SECONDS) * 1000 - 999 ==> !ExpiredAt(c, now)
  {
    var end := issuedAt + (ttl + CLOCK_SKEW_LEEWAY_SECONDS) * 1000;
    assert end / 1000 == c.exp + CLOCK_SKEW_LEEWAY_SECONDS;
  }
}
