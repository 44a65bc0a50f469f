/**
 * The `JWT_RETIRED_PUBLIC_KEYS` variable: written by `serializeRetiredPublicKeys`
 * (`libs/config/src/key-rotation.ts`), read by the schema transform (`libs/config/src/env.schema.ts`).
 */
module KeyMapCodec {
  import opened Common
  import opened Claims

  const LF: char := '\n'
  const CR: char := '\r'
  const BACKSLASH: char := '\\'

  predicate StartsCrLf(s: string) {
    |s| >= 2 && s[0] == CR && s[1] == LF
  }

  /** The two characters backslash and `n`. */
  predicate StartsEscape(s: string) {
    |s| >= 2 && s[0] == BACKSLASH && s[1] == 'n'
  }

  /** `replace(/\r?\n/g, '\\n')`, scanning from the left. */
  function Escape(s: string): string
    decreases |s|
  {
    if s == "" then ""
    else if StartsCrLf(s) then [BACKSLASH, 'n'] + Escape(s[2..])
    else if s[0] == LF then [BACKSLASH, 'n'] + Escape(s[1..])
    else [s[0]] + Escape(s[1..])
  }

  /** `replace(/\\n/g, '\n')`, scanning from the left. */
  function Unescape(s: string): string
    decreases |s|
  {
    if s == "" then ""
    else if StartsEscape(s) then [LF] + Unescape(s[2..])
    else [s[0]] + Unescape(s[1..])
  }

  /** CRLF line breaks become LF. */
  function Normalized(s: string): string
    decreases |s|
  {
    if s == "" then ""
    else if StartsCrLf(s) then [LF] + Normalized(s[2..])
    else [s[0]] + Normalized(s[1..])
  }

  predicate HasEscape(s: string)
    decreases |s|
  {
    s != "" && (StartsEscape(s) || HasEscape(s[1..]))
  }

  lemma HeadsAgree(s: string)
    ensures Escape(s) == "" <==> s == ""
    ensures Normalized(s) == "" <==> s == ""
    ensures s != "" ==> (Escape(s)[0] == 'n' <==> s[0] == 'n') && (Normalized(s)[0] == 'n' <==> s[0] == 'n')
  {
  }

  lemma UnescapeHead(c: char, s: string)
    ensures Unescape([LF] + s) == [LF] + Unescape(s)
    ensures Unescape([BACKSLASH, 'n'] + s) == [LF] + Unescape(s)
    ensures !StartsEscape([c] + s) ==> Unescape([c] + s) == [c] + Unescape(s)
  {
    assert ([BACKSLASH, 'n'] + s)[2..] == s && ([LF] + s)[1..] == s && ([c] + s)[1..] == s;
  }

  lemma OrdinaryHead(c: char, s: string)
    requires c != LF && c != CR
    ensures Escape([c] + s) == [c] + Escape(s) && Normalized([c] + s) == [c] + Normalized(s)
  {
    assert ([c] + s)[1..] == s;
  }

  lemma LiteralPassesThrough(rest: string)
    ensures Escape([BACKSLASH, 'n'] + rest) == [BACKSLASH, 'n'] + Escape(rest)
    ensures Normalized([BACKSLASH, 'n'] + rest) == [BACKSLASH, 'n'] + Normalized(rest)
  {
    assert [BACKSLASH, 'n'] + rest == [BACKSLASH] + (['n'] + rest);
    OrdinaryHead('n', rest);
    OrdinaryHead(BACKSLASH, ['n'] + rest);
  }

  lemma PlainHead(s: string)
    requires s != "" && s[0] != LF && !StartsCrLf(s) && !StartsEscape(s)
    ensures Unescape(Escape(s)) == [s[0]] + Unescape(Escape(s[1..]))
    ensures Unescape(Normalized(s)) == [s[0]] + Unescape(Normalized(s[1..]))
  {
    HeadsAgree(s[1..]);
    UnescapeHead(s[0], Escape(s[1..]));
    UnescapeHead(s[0], Normalized(s[1..]));
  }

  /** Escaping then unescaping is unescaping alone, up to line breaks, even where a backslash precedes one. */
  lemma {:induction false} UnescapeOfEscape(s: string)
    ensures Unescape(Escape(s)) == Unescape(Normalized(s))
    decreases |s|
  {
    if s == "" {
    } else if StartsCrLf(s) {
      UnescapeOfEscape(s[2..]);
      UnescapeHead(LF, Escape(s[2..]));
      UnescapeHead(LF, Normalized(s[2..]));
    } else if s[0] == LF {
      UnescapeOfEscape(s[1..]);
      UnescapeHead(LF, Escape(s[1..]));
      UnescapeHead(LF, Normalized(s[1..]));
    } else if StartsEscape(s) {
      UnescapeOfEscape(s[2..]);
      assert s == [BACKSLASH, 'n'] + s[2..];
      LiteralPassesThrough(s[2..]);
      UnescapeHead('n', Escape(s[2..]));
      UnescapeHead('n', Normalized(s[2..]));
    } else {
      UnescapeOfEscape(s[1..]);
      PlainHead(s);
    }
  }

  /** Unescaping leaves a string alone exactly when it holds no literal backslash-n; otherwise it shortens it. */
  lemma {:induction false} UnescapeFixes(s: string)
    ensures |Unescape(s)| <= |s|
    ensures HasEscape(s) ==> |Unescape(s)| < |s|
    ensures !HasEscape(s) ==> Unescape(s) == s
    decreases |s|
  {
    if s != "" {
      if StartsEscape(s) {
        UnescapeFixes(s[2..]);
      } else {
        UnescapeFixes(s[1..]);
      }
    }
  }

  lemma {:induction false} NormalizedKeepsEscapes(s: string)
    ensures HasEscape(Normalized(s)) <==> HasEscape(s)
    decreases |s|
  {
    if s != "" {
      if StartsCrLf(s) {
        NormalizedKeepsEscapes(s[2..]);
        assert s[1..][1..] == s[2..];
        assert Normalized(s)[1..] == Normalized(s[2..]);
        assert !StartsEscape(s) && !StartsEscape(s[1..]);
      } else {
        NormalizedKeepsEscapes(s[1..]);
        HeadsAgree(s[1..]);
        assert Normalized(s)[1..] == Normalized(s[1..]);
      }
    }
  }

  // ---- trimming -------------------------------------------------------------------------------

  /** What `String.prototype.trim` strips. */
  predicate IsSpace(c: char) {
    || '\t' <= c <= '\r' || c == ' ' || c == '\U{A0}' || c == '\U{1680}' || '\U{2000}' <= c <= '\U{200A}'
    || c == '\U{2028}' || c == '\U{2029}' || c == '\U{202F}' || c == '\U{205F}' || c == '\U{3000}' || c == '\U{FEFF}'
  }

  function Trim(s: string): (t: string)
    ensures |t| <= |s|
    decreases |s|
  {
    if s == "" then ""
    else if IsSpace(s[0]) then Trim(s[1..])
    else if IsSpace(s[|s| - 1]) then Trim(s[..|s| - 1])
    else s
  }

  predicate Trimmed(s: string) {
    s != "" ==> !IsSpace(s[0]) && !IsSpace(s[|s| - 1])
  }

  lemma {:induction false} NormalizedEnds(s: string)
    requires s != "" && !IsSpace(s[|s| - 1])
    ensures Normalized(s) != "" && Normalized(s)[|Normalized(s)| - 1] == s[|s| - 1]
    decreases |s|
  {
    if StartsCrLf(s) {
      assert s[1] != s[|s| - 1];
      NormalizedEnds(s[2..]);
    } else if |s| > 1 {
      NormalizedEnds(s[1..]);
    }
  }

  lemma NormalizedTrimmed(s: string)
    requires Trimmed(s)
    ensures Trimmed(Normalized(s))
  {
    if s != "" {
      NormalizedEnds(s);
    }
  }

  // ---- the variable ---------------------------------------------------------------------------

  type KeyMap = map<string, string>

  /** `JSON.stringify` on a map of strings, and `JSON.parse` to a JSON object, if it is one. */
  datatype JsonText = JsonText(stringify: KeyMap -> string, parse: string -> Option<Payload>)

  function AsObject(keys: KeyMap): Payload {
    map kid | kid in keys :: Text(keys[kid])
  }

  /** Parsing inverts stringifying, and a stringified object is never blank. */
  ghost predicate Lawful(json: JsonText) {
    forall keys :: json.parse(json.stringify(keys)) == Some(AsObject(keys)) && Trim(json.stringify(keys)) != ""
  }

  function EscapedMap(keys: KeyMap): KeyMap {
    map kid | kid in keys :: Escape(keys[kid])
  }

  function SerializeRetiredPublicKeys(json: JsonText, keys: KeyMap): string {
    json.stringify(EscapedMap(keys))
  }

  /** The schema transform; `None` is a reported issue. */
  function ParseRetiredPublicKeys(json: JsonText, value: string): Option<KeyMap> {
    if Trim(value) == "" then Some(map[])
    else
      var parsed := json.parse(value);
      if parsed.None? then None
      else if exists kid :: kid in parsed.value && !parsed.value[kid].Text? then None
      else Some(map kid | kid in parsed.value :: Trim(Unescape(parsed.value[kid].text)))
  }

  function ReadBackMap(keys: KeyMap): KeyMap {
    map kid | kid in keys :: Trim(Unescape(Normalized(keys[kid])))
  }

  function NormalizedMap(keys: KeyMap): KeyMap {
    map kid | kid in keys :: Normalized(keys[kid])
  }

  /** Writing then reading, for every key map whatsoever. */
  lemma ReadBack(json: JsonText, keys: KeyMap)
    requires Lawful(json)
    ensures ParseRetiredPublicKeys(json, SerializeRetiredPublicKeys(json, keys)) == Some(ReadBackMap(keys))
  {
    var written := AsObject(EscapedMap(keys));
    assert json.parse(SerializeRetiredPublicKeys(json, keys)) == Some(written);
    var read := map kid | kid in written :: Trim(Unescape(written[kid].text));
    forall kid | kid in keys ensures read[kid] == ReadBackMap(keys)[kid] {
      UnescapeOfEscape(keys[kid]);
    }
    assert read == ReadBackMap(keys);
  }

  lemma OneKeyReadsBackIff(pem: string)
    requires Trimmed(pem)
    ensures Trim(Unescape(Normalized(pem))) == Normalized(pem) <==> !HasEscape(pem)
  {
    var n := Normalized(pem);
    UnescapeFixes(n);
    NormalizedKeepsEscapes(pem);
    NormalizedTrimmed(pem);
    if HasEscape(pem) {
      assert |Trim(Unescape(n))| < |n|;
    } else {
      assert Trim(n) == n;
    }
  }

  /**
   * For trimmed PEMs the variable reads back as the same map, line breaks normalised, exactly when no PEM
   * holds a literal backslash-n; a backslash before a real line break does no harm.
   */
  lemma RoundTripIff(json: JsonText, keys: KeyMap)
    requires Lawful(json) && forall kid | kid in keys :: Trimmed(keys[kid])
    ensures ParseRetiredPublicKeys(json, SerializeRetiredPublicKeys(json, keys)) == Some(NormalizedMap(keys))
            <==> forall kid | kid in keys :: !HasEscape(keys[kid])
  {
    ReadBack(json, keys);
    var read, wanted := ReadBackMap(keys), NormalizedMap(keys);
    forall kid | kid in keys ensures read[kid] == wanted[kid] <==> !HasEscape(keys[kid]) {
      OneKeyReadsBackIff(keys[kid]);
    }
    assert read == wanted <==> forall kid | kid in keys :: read[kid] == wanted[kid];
  }

  // ---- the two transforms by themselves -------------------------------------------------------

  /** What is written fits a single line, and what holds no line break is written as it is. */
  lemma {:induction false} EscapedIsOneLine(s: string)
    ensures '\n' !in Escape(s)
    ensures '\n' !in s ==> Escape(s) == s
    decreases |s|
  {
    if s != "" {
      if StartsCrLf(s) {
        EscapedIsOneLine(s[2..]);
      } else {
        EscapedIsOneLine(s[1..]);
      }
    }
  }

  /** Trimming takes white space off both ends and nothing else. */
  lemma {:induction false} TrimMeaning(s: string) returns (i: nat, j: nat)
    ensures i <= j <= |s| && Trim(s) == s[i..j]
    ensures forall k :: 0 <= k < i || j <= k < |s| ==> IsSpace(s[k])
    ensures Trimmed(Trim(s))
    decreases |s|
  {
    if s == "" {
      i, j := 0, 0;
    } else if IsSpace(s[0]) {
      var a, b := TrimMeaning(s[1..]);
      i, j := a + 1, b + 1;
      assert forall k :: 1 <= k < |s| ==> s[k] == s[1..][k - 1];
    } else if IsSpace(s[|s| - 1]) {
      i, j := TrimMeaning(s[..|s| - 1]);
      assert forall k :: 0 <= k < |s| - 1 ==> s[k] == s[..|s| - 1][k];
    } else {
      i, j := 0, |s|;
    }
  }

  /** Nothing but white space. */
  predicate Blank(s: string) {
    forall k :: 0 <= k < |s| ==> IsSpace(s[k])
  }

  lemma BlankIff(s: string)
    ensures Trim(s) == "" <==> Blank(s)
  {
    var i, j := TrimMeaning(s);
    if i < j {
      assert s[i] == Trim(s)[0];
    }
  }

  /**
   * What the schema makes of any value of the variable. A blank one is the empty map; it is an issue exactly when it
   * is not blank and is no JSON object of texts; otherwise it is that object, key by key, unescaped and trimmed.
   */
  lemma ParseMeaning(json: JsonText, value: string)
    ensures var read, parsed := ParseRetiredPublicKeys(json, value), json.parse(value);
            && (Blank(value) ==> read == Some(map[]))
            && (read == None <==>
                !Blank(value) && (parsed.None? || exists kid :: kid in parsed.value && !parsed.value[kid].Text?))
            && (!Blank(value) && read.Some? ==>
                  && parsed.Some? && read.value.Keys == parsed.value.Keys
                  && forall kid :: kid in read.value ==>
                       parsed.value[kid].Text? && read.value[kid] == Trim(Unescape(parsed.value[kid].text)))
  {
    BlankIff(value);
  }
}
