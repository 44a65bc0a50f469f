/** Compact JWS signing and parsing over base64url, `libs/auth-kit/src/jws.ts`. */
module CompactJws {
  import opened Common
  import opened Contracts
  import opened Claims
  import opened Text
  import opened KeyRotation

  type Byte = n: int | 0 <= n < 256
  type Sextet = n: int | 0 <= n < 64

  // ---- base64url, section 5 of RFC 4648, without padding ----------------------------------------

  function Digit(v: Sextet): char {
    if v < 26 then 'A' + v as char
    else if v < 52 then 'a' + (v - 26) as char
    else if v < 62 then '0' + (v - 52) as char
    else if v == 62 then '-'
    else '_'
  }

  predicate IsDigit(c: char) {
    'A' <= c <= 'Z' || 'a' <= c <= 'z' || '0' <= c <= '9' || c == '-' || c == '_'
  }

  function ValueOf(c: char): (v: Sextet)
    requires IsDigit(c)
    ensures Digit(v) == c
  {
    if 'A' <= c <= 'Z' then (c - 'A') as int
    else if 'a' <= c <= 'z' then (c - 'a') as int + 26
    else if '0' <= c <= '9' then (c - '0') as int + 52
    else if c == '-' then 62
    else 63
  }

  lemma DigitInverse(v: Sextet)
    ensures IsDigit(Digit(v)) && ValueOf(Digit(v)) == v
  {
  }

  /** The alphabet of table 2 of RFC 4648, by code point: A to Z, a to z, 0 to 9, the hyphen, the underscore. */
  lemma DigitsOfTheAlphabet(v: Sextet, c: char)
    ensures Digit(v) as int ==
            if v < 26 then 65 + v else if v < 52 then 71 + v else if v < 62 then v - 4 else if v == 62 then 45 else 95
    ensures IsDigit(c) <==>
            65 <= c as int <= 90 || 97 <= c as int <= 122 || 48 <= c as int <= 57 || c as int == 45 || c as int == 95
  {
  }

  function Sextets(bytes: seq<Byte>): seq<Sextet> {
    if |bytes| == 0 then []
    else if |bytes| == 1 then [bytes[0] / 4, (bytes[0] % 4) * 16]
    else if |bytes| == 2 then [bytes[0] / 4, (bytes[0] % 4) * 16 + bytes[1] / 16, (bytes[1] % 16) * 4]
    else
      [bytes[0] / 4, (bytes[0] % 4) * 16 + bytes[1] / 16, (bytes[1] % 16) * 4 + bytes[2] / 64, bytes[2] % 64]
      + Sextets(bytes[3..])
  }

  /** Left-over bits, and a single left-over digit, are ignored. */
  function BytesOf(v: seq<Sextet>): seq<Byte> {
    if |v| <= 1 then []
    else
      var a: int, b: int := v[0], v[1];
      if |v| == 2 then [a * 4 + b / 16]
      else
        var c: int := v[2];
        if |v| == 3 then [a * 4 + b / 16, (b % 16) * 16 + c / 4]
        else [a * 4 + b / 16, (b % 16) * 16 + c / 4, (c % 4) * 64 + v[3]] + BytesOf(v[4..])
  }

  predicate AllDigits(s: string) {
    forall i :: 0 <= i < |s| ==> IsDigit(s[i])
  }

  /** A non-empty segment of the alphabet; the only check made before decoding. */
  predicate IsSegment(s: string) {
    s != "" && AllDigits(s)
  }

  function Digits(v: seq<Sextet>): (s: string)
    ensures |s| == |v|
  {
    seq(|v|, i requires 0 <= i < |v| => Digit(v[i]))
  }

  function Values(s: string): seq<Sextet>
    requires AllDigits(s)
  {
    seq(|s|, i requires 0 <= i < |s| => ValueOf(s[i]))
  }

  function Encode(bytes: seq<Byte>): string {
    Digits(Sextets(bytes))
  }

  /** Node's lenient decoder, on alphabet characters. */
  function Decode(s: string): seq<Byte>
    requires AllDigits(s)
  {
    BytesOf(Values(s))
  }

  lemma DigitsInverse(v: seq<Sextet>)
    ensures AllDigits(Digits(v)) && Values(Digits(v)) == v
  {
    forall i | 0 <= i < |v| ensures IsDigit(Digits(v)[i]) && ValueOf(Digits(v)[i]) == v[i] {
      DigitInverse(v[i]);
    }
  }

  lemma ValuesInverse(s: string)
    requires AllDigits(s)
    ensures Digits(Values(s)) == s
  {
  }

  lemma {:induction false} BytesOfSextets(bytes: seq<Byte>)
    ensures BytesOf(Sextets(bytes)) == bytes
    ensures Sextets(bytes) == [] <==> bytes == []
  {
    if |bytes| >= 3 {
      BytesOfSextets(bytes[3..]);
      assert Sextets(bytes)[4..] == Sextets(bytes[3..]);
      assert bytes == [bytes[0], bytes[1], bytes[2]] + bytes[3..];
    }
  }

  /** No single left-over digit, and no bit set past the last whole byte. */
  predicate Canonical(v: seq<Sextet>) {
    if |v| == 0 then true
    else if |v| == 1 then false
    else if |v| == 2 then v[1] % 16 == 0
    else if |v| == 3 then v[2] % 4 == 0
    else Canonical(v[4..])
  }

  /** The digits that carry the bytes: a single left-over digit dropped, the unused bits cleared. */
  function Normal(v: seq<Sextet>): seq<Sextet> {
    if |v| <= 1 then []
    else if |v| == 2 then [v[0], v[1] - v[1] % 16]
    else if |v| == 3 then [v[0], v[1], v[2] - v[2] % 4]
    else v[..4] + Normal(v[4..])
  }

  /** Another spelling of the same bytes: a left-over digit added or changed, or the unused bits changed. */
  function Respelled(v: seq<Sextet>): seq<Sextet> {
    if |v| == 0 then [0]
    else if |v| == 1 then [if v[0] == 0 then 1 else 0]
    else if |v| == 2 then [v[0], if v[1] % 16 == 0 then v[1] + 1 else v[1] - v[1] % 16]
    else if |v| == 3 then [v[0], v[1], if v[2] % 4 == 0 then v[2] + 1 else v[2] - v[2] % 4]
    else v[..4] + Respelled(v[4..])
  }

  /** Three bytes made of four sextets fall apart into the same four. */
  lemma QuadOfTriple(a: Sextet, b: Sextet, c: Sextet, d: Sextet, x: int, y: int, z: int)
    requires x == (a as int) * 4 + b / 16 && y == (b % 16) * 16 + c / 4 && z == (c % 4) * 64 + d
    ensures x / 4 == a && (x % 4) * 16 + y / 16 == b && (y % 16) * 4 + z / 64 == c && z % 64 == d
  {
  }

  lemma SextetsOfConcat(x: Byte, y: Byte, z: Byte, rest: seq<Byte>)
    ensures Sextets([x, y, z] + rest) == [x / 4, (x % 4) * 16 + y / 16, (y % 16) * 4 + z / 64, z % 64] + Sextets(rest)
  {
    assert ([x, y, z] + rest)[3..] == rest;
  }

  /** Three bytes and their four digits spell the same 24-bit number, most significant first; so do the tails. */
  lemma DigitsAreBigEndian(x: Byte, y: Byte, z: Byte, rest: seq<Byte>)
    ensures var d := Sextets([x, y, z] + rest);
            && |d| >= 4 && d[4..] == Sextets(rest)
            && ((x as int * 256 + y) * 256 + z) == ((d[0] as int * 64 + d[1]) * 64 + d[2]) * 64 + d[3]
    ensures var d := Sextets([x, y]); |d| == 3 && (x as int * 256 + y) * 4 == (d[0] as int * 64 + d[1]) * 64 + d[2]
    ensures var d := Sextets([x]); |d| == 2 && x as int * 16 == d[0] as int * 64 + d[1]
    ensures Sextets([]) == []
  {
    SextetsOfConcat(x, y, z, rest);
  }

  lemma BytesOfConcat(a: Sextet, b: Sextet, c: Sextet, d: Sextet, rest: seq<Sextet>) returns (x: Byte, y: Byte, z: Byte)
    ensures BytesOf([a, b, c, d] + rest) == [x, y, z] + BytesOf(rest)
    ensures x == (a as int) * 4 + b / 16 && y == (b % 16) * 16 + c / 4 && z == (c % 4) * 64 + d
  {
    assert ([a, b, c, d] + rest)[4..] == rest;
    x, y, z := (a as int) * 4 + b / 16, (b as int % 16) * 16 + c / 4, (c as int % 4) * 64 + d;
  }

  lemma SextetsOfQuad(a: Sextet, b: Sextet, c: Sextet, d: Sextet, rest: seq<Sextet>)
    ensures Sextets(BytesOf([a, b, c, d] + rest)) == [a, b, c, d] + Sextets(BytesOf(rest))
  {
    var x, y, z := BytesOfConcat(a, b, c, d, rest);
    QuadOfTriple(a, b, c, d, x, y, z);
    SextetsOfConcat(x, y, z, BytesOf(rest));
  }

  lemma ByteOfPair(a: int, b: int)
    requires 0 <= a < 64 && 0 <= b < 64
    ensures var x := a * 4 + b / 16; 0 <= x < 256 && x / 4 == a && (x % 4) * 16 == b - b % 16
  {
    assert 0 <= b / 16 < 4;
  }

  lemma BytesOfThree(a: int, b: int, c: int)
    requires 0 <= a < 64 && 0 <= b < 64 && 0 <= c < 64
    ensures var x, y := a * 4 + b / 16, (b % 16) * 16 + c / 4;
            0 <= x < 256 && 0 <= y < 256 && x / 4 == a && (x % 4) * 16 + y / 16 == b && (y % 16) * 4 == c - c % 4
  {
    ByteOfPair(a, b);
    assert 0 <= c / 4 < 16;
  }

  lemma SextetsOfOne(x: Byte)
    ensures Sextets([x]) == [x / 4, (x % 4) * 16]
  {
  }

  lemma SextetsOfTwo(x: Byte, y: Byte)
    ensures Sextets([x, y]) == [x / 4, (x % 4) * 16 + y / 16, (y % 16) * 4]
  {
  }

  lemma {:induction false} SextetsOfBytes(v: seq<Sextet>)
    ensures Sextets(BytesOf(v)) == Normal(v)
  {
    if |v| == 2 {
      ByteOfPair(v[0], v[1]);
      SextetsOfOne((v[0] as int) * 4 + v[1] / 16);
    } else if |v| == 3 {
      BytesOfThree(v[0], v[1], v[2]);
      SextetsOfTwo((v[0] as int) * 4 + v[1] / 16, (v[1] as int % 16) * 16 + v[2] / 4);
    } else if |v| >= 4 {
      var rest := v[4..];
      SextetsOfBytes(rest);
      assert v == [v[0], v[1], v[2], v[3]] + rest;
      SextetsOfQuad(v[0], v[1], v[2], v[3], rest);
    }
  }

  lemma {:induction false} NormalIff(v: seq<Sextet>)
    ensures Normal(v) == v <==> Canonical(v)
  {
    if |v| == 2 {
      assert v == [v[0], v[1]];
    } else if |v| == 3 {
      assert v == [v[0], v[1], v[2]];
    } else if |v| >= 4 {
      NormalIff(v[4..]);
      assert v == v[..4] + v[4..];
      SameTail(v[..4], Normal(v[4..]), v[4..]);
    }
  }

  lemma SameTail<T>(head: seq<T>, a: seq<T>, b: seq<T>)
    ensures head + a == head + b <==> a == b
  {
    assert (head + a)[|head|..] == a && (head + b)[|head|..] == b;
  }

  /** Decoding undoes encoding, bit for bit. */
  lemma DecodeOfEncode(bytes: seq<Byte>)
    ensures AllDigits(Encode(bytes)) && Decode(Encode(bytes)) == bytes
    ensures Encode(bytes) == "" <==> bytes == []
  {
    DigitsInverse(Sextets(bytes));
    BytesOfSextets(bytes);
  }

  /**
   * Re-encoding what was decoded gives the segment back exactly when the segment is canonical. The alphabet
   * check alone does not make it so.
   */
  lemma EncodeOfDecodeIff(s: string)
    requires AllDigits(s)
    ensures Encode(Decode(s)) == s <==> Canonical(Values(s))
  {
    SextetsOfBytes(Values(s));
    NormalIff(Values(s));
    ValuesInverse(s);
    DigitsInverse(Sextets(BytesOf(Values(s))));
  }

  /** Two segments decode to the same bytes exactly when they differ in unused bits and left-over digits only. */
  lemma CanonicalSegmentsAreUnique(s: string, t: string)
    requires AllDigits(s) && AllDigits(t)
    ensures Decode(s) == Decode(t) <==> Normal(Values(s)) == Normal(Values(t))
    ensures Canonical(Values(s)) && Canonical(Values(t)) ==> (Decode(s) == Decode(t) <==> s == t)
  {
    SextetsOfBytes(Values(s));
    SextetsOfBytes(Values(t));
    BytesOfSextets(Decode(s));
    BytesOfSextets(Decode(t));
    NormalIff(Values(s));
    NormalIff(Values(t));
    ValuesInverse(s);
    ValuesInverse(t);
  }

  lemma {:induction false} RespelledDecodesAlike(v: seq<Sextet>)
    ensures Respelled(v) != v && Respelled(v) != []
    ensures Normal(Respelled(v)) == Normal(v)
  {
    if |v| >= 4 {
      var rest := v[4..];
      RespelledDecodesAlike(rest);
      assert v == v[..4] + rest;
      SameTail(v[..4], Respelled(rest), rest);
      assert Respelled(v)[..4] == v[..4] && Respelled(v)[4..] == Respelled(rest);
    }
  }

  /** Every segment of the alphabet has another one with the same bytes. */
  lemma SegmentRespells(s: string) returns (t: string)
    requires IsSegment(s)
    ensures IsSegment(t) && t != s && Decode(t) == Decode(s)
  {
    var v := Values(s);
    t := Digits(Respelled(v));
    RespelledDecodesAlike(v);
    DigitsInverse(Respelled(v));
    CanonicalSegmentsAreUnique(s, t);
  }

  lemma RespellingExample()
    ensures IsSegment("AB") && !Canonical(Values("AB")) && IsSegment("AA") && Decode("AB") == Decode("AA")
  {
    assert Values("AB") == [0, 1] && Values("AA") == [0, 0];
  }

  // ---- signing and parsing ----------------------------------------------------------------------

  /** JSON to and from bytes; `decode` answers only for a JSON object. */
  datatype JsonCodec = JsonCodec(encode: Payload -> seq<Byte>, decode: seq<Byte> -> Option<Payload>)

  /** RSASSA over the ASCII signing input. */
  datatype Scheme = Scheme(sign: (string, PrivateKey) -> seq<Byte>, verify: (string, Pem, seq<Byte>) -> bool)

  ghost predicate Lawful(json: JsonCodec, rsa: Scheme) {
    && (forall p :: json.encode(p) != [] && json.decode(json.encode(p)) == Some(p))
    && (forall text, key :: rsa.sign(text, key) != [] && rsa.verify(text, key.publicHalf, rsa.sign(text, key)))
  }

  datatype JwsHeader = JwsHeader(alg: string, typ: Option<string>, kid: string)

  datatype ParsedJws = ParsedJws(header: JwsHeader, payload: Payload, signingInput: string, signature: seq<Byte>)

  datatype FormatError = NotThreeSegments | BadSegment | NotJsonObject | MissingAlg | MissingKid | UnsupportedAlg

  function EncodeSegment(json: JsonCodec, value: Payload): string {
    Encode(json.encode(value))
  }

  function HeaderFor(kid: string): Payload {
    map["alg" := Claims.Text(JWT_SIGNING_ALGORITHM), "typ" := Claims.Text("JWT"), "kid" := Claims.Text(kid)]
  }

  function SignCompactJws(json: JsonCodec, rsa: Scheme, payload: Payload, key: PrivateKey, kid: string): string {
    var signingInput := EncodeSegment(json, HeaderFor(kid)) + ['.'] + EncodeSegment(json, payload);
    signingInput + ['.'] + Encode(rsa.sign(signingInput, key))
  }

  function DecodeSegment(json: JsonCodec, segment: string): Result<Payload, FormatError> {
    if !IsSegment(segment) then Failure(BadSegment)
    else
      var parsed := json.decode(Decode(segment));
      if parsed.None? then Failure(NotJsonObject) else Success(parsed.value)
  }

  function ParseCompactJws(json: JsonCodec, token: string): Result<ParsedJws, FormatError> {
    var segments := Split(token, '.');
    if |segments| != 3 then Failure(NotThreeSegments)
    else if !IsSegment(segments[2]) then Failure(BadSegment)
    else
      var header := DecodeSegment(json, segments[0]);
      if header.Failure? then Failure(header.error)
      else
        var payload := DecodeSegment(json, segments[1]);
        if payload.Failure? then Failure(payload.error)
        else if !("alg" in header.value && header.value["alg"].Text?) then Failure(MissingAlg)
        else if !NonEmptyText(header.value, "kid") then Failure(MissingKid)
        else
          var typ := if "typ" in header.value && header.value["typ"].Text? then Some(header.value["typ"].text)
              else None;
          Success(ParsedJws(JwsHeader(header.value["alg"].text, typ, header.value["kid"].text), payload.value,
                            segments[0] + ['.'] + segments[1], Decode(segments[2])))
  }

  function VerifyCompactJws(rsa: Scheme, parsed: ParsedJws, key: Pem): Result<bool, FormatError> {
    if parsed.header.alg != JWT_SIGNING_ALGORITHM then Failure(UnsupportedAlg)
    else Success(rsa.verify(parsed.signingInput, key, parsed.signature))
  }

  /** A signature counts only under RS256: any other header is refused before the key is even used. */
  lemma VerifiesIff(rsa: Scheme, parsed: ParsedJws, key: Pem)
    ensures var r := VerifyCompactJws(rsa, parsed, key);
            && (r == Success(true) <==>
                parsed.header.alg == "RS256" && rsa.verify(parsed.signingInput, key, parsed.signature))
            && (r.Failure? <==> parsed.header.alg != "RS256")
  {
  }

  lemma NoDot(s: string)
    requires AllDigits(s)
    ensures '.' !in s
  {
  }

  lemma ThreeSegments(a: string, b: string, c: string)
    requires AllDigits(a) && AllDigits(b) && AllDigits(c)
    ensures Split(a + ['.'] + b + ['.'] + c, '.') == [a, b, c]
  {
    NoDot(a);
    NoDot(b);
    NoDot(c);
    assert [a, b, c][1..] == [b, c] && [b, c][1..] == [c];
    assert Join([b, c], '.') == b + ['.'] + c;
    assert Join([a, b, c], '.') == a + ['.'] + b + ['.'] + c;
    SplitOfJoin([a, b, c], '.');
  }

  /** The three segments of a signed token. */
  lemma SignedSegments(json: JsonCodec, rsa: Scheme, payload: Payload, key: PrivateKey, kid: string)
    requires Lawful(json, rsa)
    ensures var header := HeaderFor(kid);
            var input := EncodeSegment(json, header) + ['.'] + EncodeSegment(json, payload);
            && Split(SignCompactJws(json, rsa, payload, key, kid), '.') ==
               [EncodeSegment(json, header), EncodeSegment(json, payload), Encode(rsa.sign(input, key))]
            && IsSegment(Encode(rsa.sign(input, key))) && Decode(Encode(rsa.sign(input, key))) == rsa.sign(input, key)
  {
    var header := HeaderFor(kid);
    var input := EncodeSegment(json, header) + ['.'] + EncodeSegment(json, payload);
    DecodeOfEncode(json.encode(header));
    DecodeOfEncode(json.encode(payload));
    DecodeOfEncode(rsa.sign(input, key));
    ThreeSegments(EncodeSegment(json, header), EncodeSegment(json, payload), Encode(rsa.sign(input, key)));
  }

  lemma SegmentRoundTrip(json: JsonCodec, rsa: Scheme, value: Payload)
    requires Lawful(json, rsa)
    ensures DecodeSegment(json, EncodeSegment(json, value)) == Success(value)
  {
    DecodeOfEncode(json.encode(value));
  }

  /** A signed token parses back to its header, its payload and the exact bytes it covers, and verifies. */
  lemma ParseOfSign(json: JsonCodec, rsa: Scheme, payload: Payload, key: PrivateKey, kid: string)
    requires Lawful(json, rsa)
    ensures var parsed := ParseCompactJws(json, SignCompactJws(json, rsa, payload, key, kid));
            && (parsed.Success? <==> kid != "")
            && (parsed.Success? ==>
                  && parsed.value.header == JwsHeader("RS256", Some("JWT"), kid)
                  && parsed.value.payload == payload
                  && parsed.value.signature == rsa.sign(parsed.value.signingInput, key)
                  && VerifyCompactJws(rsa, parsed.value, key.publicHalf) == Success(true))
  {
    SignedSegments(json, rsa, payload, key, kid);
    var a, b := EncodeSegment(json, HeaderFor(kid)), EncodeSegment(json, payload);
    var token, c := SignCompactJws(json, rsa, payload, key, kid), Encode(rsa.sign(a + ['.'] + b, key));
    SegmentRoundTrip(json, rsa, HeaderFor(kid));
    SegmentRoundTrip(json, rsa, payload);
    if kid == "" {
      RefusedWithoutKid(json, token, a, b, c, payload);
    } else {
      AssembledFromSegments(json, token, a, b, c, kid, payload);
    }
  }

  lemma RefusedWithoutKid(json: JsonCodec, token: string, a: string, b: string, c: string, payload: Payload)
    requires Split(token, '.') == [a, b, c] && IsSegment(c)
    requires DecodeSegment(json, a) == Success(HeaderFor("")) && DecodeSegment(json, b) == Success(payload)
    ensures ParseCompactJws(json, token) == Failure(MissingKid)
  {
  }

  lemma AssembledFromSegments(json: JsonCodec, token: string, a: string, b: string, c: string,
                              kid: string, payload: Payload)
    requires Split(token, '.') == [a, b, c] && IsSegment(c) && kid != ""
    requires DecodeSegment(json, a) == Success(HeaderFor(kid)) && DecodeSegment(json, b) == Success(payload)
    ensures ParseCompactJws(json, token) ==
            Success(ParsedJws(JwsHeader(JWT_SIGNING_ALGORITHM, Some("JWT"), kid), payload, a + ['.'] + b, Decode(c)))
  {
  }

  lemma JoinThree(parts: seq<string>)
    requires |parts| == 3
    ensures Join(parts, '.') == parts[0] + ['.'] + parts[1] + ['.'] + parts[2]
  {
    assert parts[1..][0] == parts[1] && parts[1..][1..] == [parts[2]];
    assert Join(parts[1..], '.') == parts[1] + ['.'] + parts[2];
  }

  /** A token cut into its header, payload and signature segments, all of them acceptable. */
  predicate IsToken(json: JsonCodec, token: string, a: string, b: string, c: string) {
    && token == a + ['.'] + b + ['.'] + c
    && IsSegment(a) && IsSegment(b) && IsSegment(c)
    && json.decode(Decode(a)).Some? && json.decode(Decode(b)).Some?
    && var header := json.decode(Decode(a)).value;
       "alg" in header && header["alg"].Text? && NonEmptyText(header, "kid")
  }

  lemma TokenParses(json: JsonCodec, token: string, a: string, b: string, c: string)
    requires IsToken(json, token, a, b, c)
    ensures var parsed := ParseCompactJws(json, token);
            && parsed.Success? && parsed.value.signingInput == a + ['.'] + b
            && parsed.value.payload == json.decode(Decode(b)).value && parsed.value.signature == Decode(c)
            && Claims.Text(parsed.value.header.alg) == json.decode(Decode(a)).value["alg"]
            && Claims.Text(parsed.value.header.kid) == json.decode(Decode(a)).value["kid"]
            && (var header := json.decode(Decode(a)).value;
                parsed.value.header.typ ==
                if "typ" in header && header["typ"].Text? then Some(header["typ"].text) else None)
  {
    ThreeSegments(a, b, c);
  }

  lemma ParsedIsToken(json: JsonCodec, token: string) returns (a: string, b: string, c: string)
    requires ParseCompactJws(json, token).Success?
    ensures IsToken(json, token, a, b, c)
  {
    var segments := Split(token, '.');
    a, b, c := segments[0], segments[1], segments[2];
    JoinOfSplit(token, '.');
    JoinThree(segments);
  }

  /**
   * A token parses exactly when it is three segments of the alphabet joined by dots, the first two JSON objects,
   * the header with a text `alg` and a non-empty `kid`. The signed document is then sliced from the token itself.
   */
  lemma ParsesIff(json: JsonCodec, token: string)
    ensures ParseCompactJws(json, token).Success? <==> exists a, b, c :: IsToken(json, token, a, b, c)
    ensures forall a, b, c :: IsToken(json, token, a, b, c) ==>
              var parsed := ParseCompactJws(json, token).value;
              && parsed.signingInput == a + ['.'] + b && parsed.signature == Decode(c)
              && parsed.payload == json.decode(Decode(b)).value
              && Claims.Text(parsed.header.alg) == json.decode(Decode(a)).value["alg"]
              && Claims.Text(parsed.header.kid) == json.decode(Decode(a)).value["kid"]
              && (var header := json.decode(Decode(a)).value;
                  parsed.header.typ ==
                  if "typ" in header && header["typ"].Text? then Some(header["typ"].text) else None)
  {
    if ParseCompactJws(json, token).Success? {
      var a, b, c := ParsedIsToken(json, token);
    }
    forall a, b, c | IsToken(json, token, a, b, c)
      ensures ParseCompactJws(json, token).Success?
      ensures var parsed := ParseCompactJws(json, token).value;
              && parsed.signingInput == a + ['.'] + b && parsed.signature == Decode(c)
              && parsed.payload == json.decode(Decode(b)).value
              && Claims.Text(parsed.header.alg) == json.decode(Decode(a)).value["alg"]
              && Claims.Text(parsed.header.kid) == json.decode(Decode(a)).value["kid"]
              && (var header := json.decode(Decode(a)).value;
                  parsed.header.typ ==
                  if "typ" in header && header["typ"].Text? then Some(header["typ"].text) else None)
    {
      TokenParses(json, token, a, b, c);
    }
  }

  // ---- how many tokens parse alike ------------------------------------------------------------

  /** A token whose signature segment is the one spelling an encoder would choose. */
  ghost predicate CanonicalToken(json: JsonCodec, token: string) {
    exists a, b, c :: IsToken(json, token, a, b, c) && Canonical(Values(c))
  }

  /** What a token's segments amount to, apart from the spelling of the last one. */
  function Assembled(json: JsonCodec, a: string, b: string, signature: seq<Byte>): Option<ParsedJws>
    requires IsSegment(a) && IsSegment(b)
  {
    if json.decode(Decode(a)).None? || json.decode(Decode(b)).None? then None
    else
      var header, payload := json.decode(Decode(a)).value, json.decode(Decode(b)).value;
      if !("alg" in header && header["alg"].Text?) || !NonEmptyText(header, "kid") then None
      else
        var typ := if "typ" in header && header["typ"].Text? then Some(header["typ"].text) else None;
        Some(ParsedJws(JwsHeader(header["alg"].text, typ, header["kid"].text), payload, a + ['.'] + b, signature))
  }

  lemma ParsedIsAssembled(json: JsonCodec, token: string, a: string, b: string, c: string)
    requires IsToken(json, token, a, b, c)
    ensures Assembled(json, a, b, Decode(c)).Some?
    ensures ParseCompactJws(json, token) == Success(Assembled(json, a, b, Decode(c)).value)
  {
    ThreeSegments(a, b, c);
  }

  /** The signature segment may be swapped for any other with the same bytes. */
  lemma SwapSignature(json: JsonCodec, token: string, a: string, b: string, c: string, d: string)
    requires IsToken(json, token, a, b, c) && IsSegment(d) && Decode(d) == Decode(c)
    ensures IsToken(json, a + ['.'] + b + ['.'] + d, a, b, d)
    ensures ParseCompactJws(json, a + ['.'] + b + ['.'] + d) == ParseCompactJws(json, token)
  {
    ParsedIsAssembled(json, token, a, b, c);
    ParsedIsAssembled(json, a + ['.'] + b + ['.'] + d, a, b, d);
  }

  /** The alphabet check leaves every accepted token a second spelling that parses exactly alike. */
  lemma EveryTokenRespells(json: JsonCodec, token: string) returns (u: string)
    requires ParseCompactJws(json, token).Success?
    ensures u != token && ParseCompactJws(json, u) == ParseCompactJws(json, token)
  {
    var a, b, c := ParsedIsToken(json, token);
    var d := SegmentRespells(c);
    SwapSignature(json, token, a, b, c, d);
    u := a + ['.'] + b + ['.'] + d;
    var input := a + ['.'] + b + ['.'];
    assert u == input + d && token == input + c;
    SameTail(input, c, d);
  }

  /** With the signature segment canonical there is no second spelling. */
  lemma CanonicalTokensAreUnique(json: JsonCodec, t: string, u: string)
    requires CanonicalToken(json, t) && CanonicalToken(json, u)
    ensures ParseCompactJws(json, t) == ParseCompactJws(json, u) <==> t == u
  {
    var a, b, c :| IsToken(json, t, a, b, c) && Canonical(Values(c));
    var x, y, z :| IsToken(json, u, x, y, z) && Canonical(Values(z));
    TokenParses(json, t, a, b, c);
    TokenParses(json, u, x, y, z);
    CanonicalSegmentsAreUnique(c, z);
    if ParseCompactJws(json, t) == ParseCompactJws(json, u) {
      assert t == (a + ['.'] + b) + ['.'] + c && u == (x + ['.'] + y) + ['.'] + z;
    }
  }

  lemma CanonicalHasBytes(v: seq<Sextet>)
    requires Canonical(v) && v != []
    ensures BytesOf(v) != []
  {
  }

  lemma CanonicalIsSigned(json: JsonCodec, token: string)
    requires CanonicalToken(json, token)
    ensures ParseCompactJws(json, token).Success? && ParseCompactJws(json, token).value.signature != []
  {
    var a, b, c :| IsToken(json, token, a, b, c) && Canonical(Values(c));
    TokenParses(json, token, a, b, c);
    CanonicalHasBytes(Values(c));
  }

  lemma CanonicalSpelling(json: JsonCodec, token: string) returns (u: string)
    requires ParseCompactJws(json, token).Success? && ParseCompactJws(json, token).value.signature != []
    ensures CanonicalToken(json, u) && ParseCompactJws(json, u) == ParseCompactJws(json, token)
  {
    var a, b, c := ParsedIsToken(json, token);
    TokenParses(json, token, a, b, c);
    var d := Encode(Decode(c));
    DecodeOfEncode(Decode(c));
    EncodeOfDecodeIff(d);
    SwapSignature(json, token, a, b, c, d);
    u := a + ['.'] + b + ['.'] + d;
  }

  /** A parsed token has a canonical spelling exactly when its signature is not empty. */
  lemma CanonicalSpellingIff(json: JsonCodec, token: string)
    requires ParseCompactJws(json, token).Success?
    ensures (exists u :: CanonicalToken(json, u) && ParseCompactJws(json, u) == ParseCompactJws(json, token))
            <==> ParseCompactJws(json, token).value.signature != []
  {
    if ParseCompactJws(json, token).value.signature != [] {
      var u := CanonicalSpelling(json, token);
    }
    forall u | CanonicalToken(json, u) && ParseCompactJws(json, u) == ParseCompactJws(json, token)
      ensures ParseCompactJws(json, token).value.signature != []
    {
      CanonicalIsSigned(json, u);
    }
  }

  /** What the signer writes is canonical. */
  lemma SignedIsCanonical(json: JsonCodec, rsa: Scheme, payload: Payload, key: PrivateKey, kid: string)
    requires Lawful(json, rsa) && kid != ""
    ensures CanonicalToken(json, SignCompactJws(json, rsa, payload, key, kid))
  {
    var token := SignCompactJws(json, rsa, payload, key, kid);
    ParseOfSign(json, rsa, payload, key, kid);
    SignedSegments(json, rsa, payload, key, kid);
    var segments := Split(token, '.');
    JoinOfSplit(token, '.');
    JoinThree(segments);
    EncodeOfDecodeIff(segments[2]);
    assert IsToken(json, token, segments[0], segments[1], segments[2]);
  }
}
