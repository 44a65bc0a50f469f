/**
 * The JWKS verifier of `libs/auth-kit/src/jwks-verifier.ts`. Each method runs the code between two
 * `await`s; a suspended `verify` is a `Task`, so other calls may step in at every suspension point.
 */
module JwksVerifier {
  import opened Common
  import opened Contracts
  import opened KeyRotation
  import opened Claims
  import opened RotationProtocol

  // ---- importing a key set --------------------------------------------------------------------

  datatype RsaKey = RsaKey(pem: Pem, bits: int)

  /** One JWKS entry. `key` is what `createPublicKey` makes of it, if anything. */
  datatype Jwk = Jwk(
    kid: Option<Kid>, kty: string, use: Option<string>, alg: Option<string>,
    hasPrivateMember: bool, key: Option<RsaKey>)

  predicate Usable(jwk: Jwk) {
    && jwk.kid.Some? && jwk.kid.value != ""
    && jwk.kty == "RSA"
    && (jwk.use == None || jwk.use == Some("sig"))
    && (jwk.alg == None || jwk.alg == Some(JWT_SIGNING_ALGORITHM))
    && !jwk.hasPrivateMember
    && jwk.key.Some? && jwk.key.value.bits >= JWT_MIN_RSA_KEY_BITS
  }

  /** The key map a document yields: usable entries only, the last one of a kid winning. */
  function Imported(document: seq<Jwk>): map<Kid, Pem> {
    if document == [] then map[]
    else
      var jwk := document[|document| - 1];
      var before := Imported(document[..|document| - 1]);
      if Usable(jwk) then before[jwk.kid.value := jwk.key.value.pem] else before
  }

  method ImportKeys(document: seq<Jwk>) returns (keys: map<Kid, Pem>)
    ensures keys == Imported(document)
  {
    keys := map[];
    for i := 0 to |document|
      invariant keys == Imported(document[..i])
    {
      var jwk := document[i];
      assert document[..i + 1][..i] == document[..i];
      if Usable(jwk) {
        keys := keys[jwk.kid.value := jwk.key.value.pem];
      }
    }
    assert document[..|document|] == document;
  }

  /** A kid is known exactly when a usable entry names it, and its key is the last such entry's. */
  lemma {:induction false} ImportedIsLastUsable(document: seq<Jwk>, kid: Kid)
    ensures kid in Imported(document) <==>
            exists i :: 0 <= i < |document| && Usable(document[i]) && document[i].kid == Some(kid)
    ensures forall i :: 0 <= i < |document| && Usable(document[i]) && document[i].kid == Some(kid)
                        && (forall j :: i < j < |document| && Usable(document[j]) ==> document[j].kid != Some(kid))
                        ==> Imported(document)[kid] == document[i].key.value.pem
  {
    if document != [] {
      var last := |document| - 1;
      var before := document[..last];
      ImportedIsLastUsable(before, kid);
      assert forall i :: 0 <= i < last ==> before[i] == document[i];
      if kid in Imported(before) {
        var i :| 0 <= i < last && Usable(before[i]) && before[i].kid == Some(kid);
        assert Usable(document[i]) && document[i].kid == Some(kid);
      }
    }
  }

  /** Only sound keys get in: each known kid has an entry that is a public RSA signing key of at least 2048 bits. */
  lemma KnownKeysAreSound(document: seq<Jwk>, kid: Kid)
    ensures kid in Imported(document) ==>
              kid != ""
              && exists i ::
                   0 <= i < |document|
                   && document[i].kid == Some(kid) && document[i].kty == "RSA"
                   && document[i].use in {None, Some("sig")} && document[i].alg in {None, Some("RS256")}
                   && !document[i].hasPrivateMember && document[i].key.Some? && document[i].key.value.bits >= 2048
    ensures forall jwk: Jwk :: jwk.kid.Some? && jwk.kid.value != "" && jwk.kty == "RSA"
              && jwk.use in {None, Some("sig")} && jwk.alg in {None, Some("RS256")}
              && !jwk.hasPrivateMember && jwk.key.Some? && jwk.key.value.bits >= 2048
              ==> Imported([jwk]) == map[jwk.kid.value := jwk.key.value.pem]
  {
    ImportedIsLastUsable(document, kid);
    if kid in Imported(document) {
      var i :| 0 <= i < |document| && Usable(document[i]) && document[i].kid == Some(kid);
      assert document[i].kid == Some(kid);
    }
    forall jwk: Jwk | Usable(jwk) ensures Imported([jwk]) == map[jwk.kid.value := jwk.key.value.pem] {
      assert [jwk][..0] == [];
    }
  }

  /** The entry `keys.service.ts` publishes for a key. */
  function ToJwk(kid: Kid, key: RsaKey): Jwk {
    Jwk(Some(kid), "RSA", Some("sig"), Some(JWT_SIGNING_ALGORITHM), false, Some(key))
  }

  /** The body of a JWKS response for a key map, in some order, every key passing the boot-time size check. */
  predicate Lists(document: seq<Jwk>, keys: map<Kid, Pem>) {
    && (forall jwk | jwk in document ::
          && jwk.kid.Some? && jwk.kid.value in keys && jwk.key.Some?
          && jwk.key.value.pem == keys[jwk.kid.value] && jwk.key.value.bits >= JWT_MIN_RSA_KEY_BITS
          && jwk == ToJwk(jwk.kid.value, jwk.key.value))
    && (forall kid | kid in keys :: exists jwk :: jwk in document && jwk.kid == Some(kid))
  }

  /** What the signer publishes is what a verifier imports. */
  lemma PublishedDocumentRoundTrips(document: seq<Jwk>, keys: map<Kid, Pem>)
    requires Lists(document, keys) && "" !in keys
    ensures Imported(document) == keys
  {
    forall kid ensures kid in Imported(document) <==> kid in keys {
      ImportedIsLastUsable(document, kid);
      if kid in keys {
        var jwk :| jwk in document && jwk.kid == Some(kid);
        var i :| 0 <= i < |document| && document[i] == jwk;
        assert Usable(document[i]) && document[i].kid == Some(kid);
      }
    }
    forall kid | kid in keys ensures Imported(document)[kid] == keys[kid] {
      ImportedValue(document, keys, kid);
    }
  }

  lemma {:induction false} ImportedValue(document: seq<Jwk>, keys: map<Kid, Pem>, kid: Kid)
    requires forall jwk | jwk in document && Usable(jwk) && jwk.kid == Some(kid)
               :: kid in keys && jwk.key.value.pem == keys[kid]
    ensures kid in Imported(document) ==> kid in keys && Imported(document)[kid] == keys[kid]
  {
    if document != [] {
      ImportedValue(document[..|document| - 1], keys, kid);
    }
  }

  // ---- the cache and the fetch ----------------------------------------------------------------

  /** `servedAtMs` is history: the instant the endpoint produced the document. Nothing branches on it. */
  datatype KeyCache = KeyCache(keys: map<Kid, Pem>, fetchedAtMs: int, servedAtMs: int)

  datatype Response = Response(document: seq<Jwk>, servedAtMs: int)

  datatype Options = Options(maxAgeMs: int, minRefetchMs: int, issuer: string)

  /**
   * `inFlight` holds the `now` the fetch was started with; `landed` is whether its `then` has run and only
   * its `finally` is still to come. `started` and `settled` count HTTP calls.
   */
  datatype State = State(cache: Option<KeyCache>, inFlight: Option<int>, landed: bool, started: nat, settled: nat)

  const INITIAL: State := State(None, None, false, 0, 0)

  datatype Lookup = Found(key: Option<Pem>, source: KeyCache) | Joined

  function KeyOf(keys: map<Kid, Pem>, kid: Kid): Option<Pem> {
    if kid in keys then Some(keys[kid]) else None
  }

  predicate MayRefetch(o: Options, cache: KeyCache, now: int, forced: bool) {
    now - cache.fetchedAtMs >= (if forced then o.minRefetchMs else o.maxAgeMs)
  }

  /** `keyFor` up to its first `await`: answers from the cache, or joins the one fetch, starting it if needed. */
  function KeyFor(o: Options, s: State, kid: Kid, now: int, forced: bool): (State, Lookup) {
    if s.cache.None? || MayRefetch(o, s.cache.value, now, forced) then
      (if s.inFlight.Some? then s else s.(inFlight := Some(now), started := s.started + 1), Joined)
    else
      (s, Found(KeyOf(s.cache.value.keys, kid), s.cache.value))
  }

  /** The fetch landing. `None` is any failure; the result is what its promise holds for every waiter. */
  function Settle(s: State, response: Option<Response>): (State, Option<KeyCache>)
    requires s.inFlight.Some?
  {
    var cache := if response.None? then s.cache
                 else Some(KeyCache(Imported(response.value.document), s.inFlight.value, response.value.servedAtMs));
    (s.(cache := cache, landed := true, settled := s.settled + 1), cache)
  }

  /** The `finally`: the next lookup may fetch again. Waiters resume with what landed, which is still `cache`. */
  function Release(s: State): (State, Option<KeyCache>) {
    (s.(inFlight := None, landed := false), s.cache)
  }

  // ---- one `verify` call ----------------------------------------------------------------------

  /** A `verify` in progress. `joins` counts the fetches it waited for. */
  datatype Task =
    | Waiting(token: Jws, now: int, forced: bool, joins: nat)
    | Looked(token: Jws, now: int, forced: bool, joins: nat, key: Option<Pem>, source: KeyCache)
    | Done(token: Jws, now: int, joins: nat, outcome: Result<JwtClaims, Rejection>, consulted: Option<KeyCache>)
    | Unparsed

  function AfterLookup(token: Jws, now: int, forced: bool, joins: nat, lookup: Lookup): Task {
    match lookup
    case Joined => Waiting(token, now, forced, joins + 1)
    case Found(key, source) => Looked(token, now, forced, joins, key, source)
  }

  /** The checks after a key was selected, in the order the code runs them. */
  function Verdict(o: Options, token: Jws, now: int, key: Option<Pem>): Result<JwtClaims, Rejection> {
    if key == None then Failure(UnknownKey)
    else if token.alg != JWT_SIGNING_ALGORITHM then Failure(UnsupportedAlgorithm)
    else if token.signedUnder != key.value then Failure(BadSignature)
    else
      var claims := ReadAccessTokenClaims(token.payload);
      if claims.Failure? then claims
      else
        var refusal := AssertClaimsAcceptable(claims.value, o.issuer, now);
        if refusal.Some? then Failure(refusal.value) else claims
  }

  /**
   * What a token must be to be accepted, every condition written out: signed with RS256 under the selected key,
   * carrying exactly the seven claims, of this issuer, not a minute past its end nor a minute ahead of its issue.
   */
  lemma VerdictAcceptsIff(o: Options, token: Jws, now: int, key: Option<Pem>, c: JwtClaims)
    ensures Verdict(o, token, now, key) == Success(c) <==>
            && key == Some(token.signedUnder) && token.alg == "RS256"
            && token.payload == ToPayload(c) && WellFormed(c) && c.iss == o.issuer
            && now / 1000 < c.exp + 60 && c.iat - 60 <= now / 1000
  {
    ReaderInvertsSigner(token.payload, c);
  }

  /** And which refusal it meets otherwise, in the order of the checks. */
  lemma VerdictReasons(o: Options, token: Jws, now: int, key: Option<Pem>)
    ensures Verdict(o, token, now, key) == Failure(UnknownKey) <==> key == None
    ensures Verdict(o, token, now, key) == Failure(UnsupportedAlgorithm) <==> key.Some? && token.alg != "RS256"
    ensures Verdict(o, token, now, key) == Failure(BadSignature) <==>
            key.Some? && token.alg == "RS256" && token.signedUnder != key.value
    ensures key == Some(token.signedUnder) && token.alg == "RS256" ==>
              (Verdict(o, token, now, key) == Failure(BadClaims) <==>
               forall c :: !(token.payload == ToPayload(c) && WellFormed(c)))
              && forall c :: token.payload == ToPayload(c) && WellFormed(c) ==>
                   (Verdict(o, token, now, key) == Failure(WrongIssuer) <==> c.iss != o.issuer)
                   && (Verdict(o, token, now, key) == Failure(Expired) <==>
                       c.iss == o.issuer && c.exp + 60 <= now / 1000)
                   && (Verdict(o, token, now, key) == Failure(NotYetValid) <==>
                       c.iss == o.issuer && now / 1000 < c.exp + 60 && c.iat - 60 > now / 1000)
  {
    forall c
      ensures ReadAccessTokenClaims(token.payload) == Success(c) <==> token.payload == ToPayload(c) && WellFormed(c)
    {
      ReaderInvertsSigner(token.payload, c);
    }
    var read := ReadAccessTokenClaims(token.payload);
    if read.Success? {
      assert token.payload == ToPayload(read.value) && WellFormed(read.value);
    }
  }

  /** `verify` up to its first `await`; `None` is a token that does not parse. */
  function Begin(o: Options, s: State, token: Option<Jws>, now: int): (State, Task) {
    if token.None? then (s, Unparsed)
    else
      var (t, lookup) := KeyFor(o, s, token.value.kid, now, false);
      (t, AfterLookup(token.value, now, false, 0, lookup))
  }

  /** `verify` resumed with the answer of a lookup: an unknown kid gets one forced lookup, then the verdict. */
  function Resume(o: Options, s: State, task: Task): (State, Task)
    requires task.Looked?
  {
    if task.key == None && !task.forced then
      var (t, lookup) := KeyFor(o, s, task.token.kid, task.now, true);
      (t, AfterLookup(task.token, task.now, true, task.joins, lookup))
    else
      (s, Done(task.token, task.now, task.joins, Verdict(o, task.token, task.now, task.key), Some(task.source)))
  }

  /** A waiter receiving the released fetch: `fetchKeys` throws only when it failed with nothing held. */
  function Wake(task: Task, result: Option<KeyCache>): Task {
    match task
    case Waiting(token, now, forced, joins) =>
      if result.None? then Done(token, now, joins, Failure(UnknownKey), None)
      else Looked(token, now, forced, joins, KeyOf(result.value.keys, token.kid), result.value)
    case _ => task
  }

  class Verifier {
    const options: Options
    var cache: Option<KeyCache>
    var inFlight: Option<int>
    ghost var landed: bool
    ghost var started: nat
    ghost var settled: nat

    constructor (maxAgeSeconds: Option<int>, minRefetchSeconds: Option<int>, issuer: string)
      ensures Now() == INITIAL
      ensures options.maxAgeMs == 1000 *
                    (if maxAgeSeconds.Some? then maxAgeSeconds.value else JWKS_CACHE_MAX_AGE_SECONDS)
      ensures options.minRefetchMs ==
              1000 * (if minRefetchSeconds.Some? then minRefetchSeconds.value else DEFAULT_MIN_REFETCH_INTERVAL_SECONDS)
      ensures options.issuer == issuer
    {
      var maxAge := if maxAgeSeconds.Some? then maxAgeSeconds.value else JWKS_CACHE_MAX_AGE_SECONDS;
      var floor := if minRefetchSeconds.Some? then minRefetchSeconds.value else DEFAULT_MIN_REFETCH_INTERVAL_SECONDS;
      options := Options(maxAge * 1000, floor * 1000, issuer);
      cache, inFlight, landed := None, None, false;
      started, settled := 0, 0;
    }

    ghost function Now(): State
      reads this
    {
      State(cache, inFlight, landed, started, settled)
    }

    method KeyForKid(kid: Kid, now: int, forceRefetch: bool) returns (lookup: Lookup)
      modifies this
      ensures (Now(), lookup) == KeyFor(options, old(Now()), kid, now, forceRefetch)
    {
      var mayRefetch := false;
      if cache.Some? {
        var ageMs := now - cache.value.fetchedAtMs;
        var stale := ageMs >= options.maxAgeMs;
        mayRefetch := if forceRefetch then ageMs >= options.minRefetchMs else stale;
      }
      if cache.None? || mayRefetch {
        Refresh(now);
        lookup := Joined;
      } else {
        lookup := Found(KeyOf(cache.value.keys, kid), cache.value);
      }
    }

    /** Collapses concurrent callers onto one request. */
    method Refresh(now: int)
      modifies this
      ensures Now() == if old(inFlight).Some? then old(Now())
                       else old(Now()).(inFlight := Some(now), started := old(started) + 1)
    {
      if inFlight.None? {
        inFlight := Some(now);
        started := started + 1;
      }
    }

    method FetchSettled(response: Option<Response>) returns (result: Option<KeyCache>)
      requires inFlight.Some?
      modifies this
      ensures (Now(), result) == Settle(old(Now()), response)
    {
      if response.Some? {
        var keys := ImportKeys(response.value.document);
        cache := Some(KeyCache(keys, inFlight.value, response.value.servedAtMs));
      }
      result := cache;
      landed := true;
      settled := settled + 1;
    }

    method FetchReleased() returns (result: Option<KeyCache>)
      modifies this
      ensures (Now(), result) == Release(old(Now()))
    {
      result := cache;
      inFlight := None;
      landed := false;
    }

    method VerifyStart(token: Option<Jws>, now: int) returns (task: Task)
      modifies this
      ensures (Now(), task) == Begin(options, old(Now()), token, now)
    {
      if token.None? {
        return Unparsed;
      }
      var lookup := KeyForKid(token.value.kid, now, false);
      task := AfterLookup(token.value, now, false, 0, lookup);
    }

    method VerifyResume(suspended: Task) returns (task: Task)
      requires suspended.Looked?
      modifies this
      ensures (Now(), task) == Resume(options, old(Now()), suspended)
    {
      if suspended.key == None && !suspended.forced {
        var lookup := KeyForKid(suspended.token.kid, suspended.now, true);
        return AfterLookup(suspended.token, suspended.now, true, suspended.joins, lookup);
      }
      task := Done(suspended.token, suspended.now, suspended.joins,
                   Verdict(options, suspended.token, suspended.now, suspended.key), Some(suspended.source));
    }
  }

  // ---- runs of one verifier -------------------------------------------------------------------

  /** A verifier with the calls in progress on it. `stamps` lists its successful fetches, oldest first. */
  datatype Node = Node(options: Options, state: State, tasks: map<nat, Task>, stamps: seq<int>)

  datatype Event =
    | VerifyCalled(id: nat, token: Option<Jws>, now: int)
    | TaskResumed(id: nat)
    | FetchLands(response: Option<Response>)
    | FetchReleases

  predicate Possible(n: Node, e: Event) {
    match e
    case VerifyCalled(id, _, _) => id !in n.tasks
    case TaskResumed(id) => id in n.tasks && n.tasks[id].Looked?
    case FetchLands(_) => n.state.inFlight.Some? && !n.state.landed
    case FetchReleases => n.state.landed
  }

  function Step(n: Node, e: Event): Node
    requires Possible(n, e)
  {
    match e
    case VerifyCalled(id, token, now) =>
      var (s, task) := Begin(n.options, n.state, token, now);
      n.(state := s, tasks := n.tasks[id := task])
    case TaskResumed(id) =>
      var (s, task) := Resume(n.options, n.state, n.tasks[id]);
      n.(state := s, tasks := n.tasks[id := task])
    case FetchLands(response) =>
      n.(state := Settle(n.state, response).0,
         stamps := if response.Some? then n.stamps + [n.state.inFlight.value] else n.stamps)
    case FetchReleases =>
      var (s, result) := Release(n.state);
      n.(state := s, tasks := map id | id in n.tasks :: Wake(n.tasks[id], result))
  }

  predicate NodeStart(n: Node) {
    n.state == INITIAL && n.tasks == map[] && n.stamps == []
  }

  function NodeRun(n: Node, events: seq<Event>): Option<Node>
    decreases |events|
  {
    if events == [] then Some(n)
    else if !Possible(n, events[0]) then None
    else NodeRun(Step(n, events[0]), events[1..])
  }

  function Gap(o: Options): int { Min(o.maxAgeMs, o.minRefetchMs) }

  predicate Spaced(stamps: seq<int>, gap: int) {
    forall k :: 0 < k < |stamps| ==> stamps[k] - stamps[k - 1] >= gap
  }

  predicate TaskInv(n: Node, task: Task) {
    match task
    case Waiting(_, _, forced, joins) => n.state.inFlight.Some? && joins <= (if forced then 2 else 1)
    case Looked(_, _, forced, joins, _, _) => joins <= (if forced then 2 else 1)
    case Done(_, _, joins, _, _) => joins <= 2
    case Unparsed => true
  }

  /** What a call holds is what its key set says of its kid, and how old that set may be where no fetch was joined. */
  predicate LookInv(o: Options, task: Task) {
    match task
    case Waiting(_, _, _, joins) => joins >= 1
    case Looked(token, now, forced, joins, key, source) =>
      && key == KeyOf(source.keys, token.kid)
      && (joins == 0 ==> now - source.fetchedAtMs < (if forced then o.minRefetchMs else o.maxAgeMs))
    case Done(token, now, joins, outcome, consulted) =>
      if consulted.None? then joins >= 1 && outcome == Failure(UnknownKey)
      else
        && outcome == Verdict(o, token, now, KeyOf(consulted.value.keys, token.kid))
        && (joins == 0 && token.kid !in consulted.value.keys ==> now - consulted.value.fetchedAtMs < o.minRefetchMs)
    case Unparsed => true
  }

  predicate NodeInv(n: Node) {
    var s := n.state;
    && (s.landed ==> s.inFlight.Some?)
    && s.started == s.settled + (if s.inFlight.Some? && !s.landed then 1 else 0)
    && Spaced(n.stamps, Gap(n.options))
    && (s.cache.Some? <==> n.stamps != [])
    && (s.cache.Some? ==> s.cache.value.fetchedAtMs == n.stamps[|n.stamps| - 1])
    && (s.cache.Some? && s.inFlight.Some? && !s.landed ==>
          s.inFlight.value - s.cache.value.fetchedAtMs >= Gap(n.options))
    && (forall id | id in n.tasks :: TaskInv(n, n.tasks[id]))
  }

  lemma StepKeepsLookInv(n: Node, e: Event)
    requires NodeInv(n) && Possible(n, e) && forall id | id in n.tasks :: LookInv(n.options, n.tasks[id])
    ensures Step(n, e).options == n.options
    ensures forall id | id in Step(n, e).tasks :: LookInv(n.options, Step(n, e).tasks[id])
  {
    var m := Step(n, e);
    forall id | id in m.tasks ensures LookInv(n.options, m.tasks[id]) {
      if id in n.tasks {
        assert LookInv(n.options, n.tasks[id]);
      }
    }
  }

  lemma {:induction false} RunKeepsLookInv(n: Node, events: seq<Event>)
    requires NodeInv(n) && NodeRun(n, events).Some? && forall id | id in n.tasks :: LookInv(n.options, n.tasks[id])
    ensures var m := NodeRun(n, events).value;
            m.options == n.options && forall id | id in m.tasks :: LookInv(n.options, m.tasks[id])
    decreases |events|
  {
    if events != [] {
      StepKeepsNodeInv(n, events[0]);
      StepKeepsLookInv(n, events[0]);
      RunKeepsLookInv(Step(n, events[0]), events[1..]);
    }
  }

  /**
   * An unknown kid is looked up again before it is refused. In every run of one verifier a finished call that was
   * handed keys without its kid, and joined no fetch, consulted keys younger than the floor at its `now`; and one
   * that was handed none at all had joined a fetch.
   */
  lemma UnknownKidIsLookedUpAgain(start: Node, events: seq<Event>, id: nat)
    requires NodeStart(start) && NodeRun(start, events).Some?
    requires id in NodeRun(start, events).value.tasks && NodeRun(start, events).value.tasks[id].Done?
    ensures var n := NodeRun(start, events).value;
            var task := n.tasks[id];
            && (task.joins == 0 ==> task.consulted.Some?)
            && (task.consulted.Some? && task.token.kid !in task.consulted.value.keys ==>
                  && task.outcome == Failure(UnknownKey)
                  && (task.joins == 0 ==> task.now - task.consulted.value.fetchedAtMs < n.options.minRefetchMs))
            && (task.consulted.None? ==> task.outcome == Failure(UnknownKey))
  {
    RunKeepsLookInv(start, events);
    assert LookInv(start.options, NodeRun(start, events).value.tasks[id]);
  }

  lemma StepKeepsNodeInv(n: Node, e: Event)
    requires NodeInv(n) && Possible(n, e)
    ensures NodeInv(Step(n, e))
  {
    var m := Step(n, e);
    forall id | id in m.tasks ensures TaskInv(m, m.tasks[id]) {
      if id in n.tasks {
        assert TaskInv(n, n.tasks[id]);
      }
    }
  }

  lemma {:induction false} RunKeepsNodeInv(n: Node, events: seq<Event>)
    requires NodeInv(n) && NodeRun(n, events).Some?
    ensures NodeInv(NodeRun(n, events).value)
    decreases |events|
  {
    if events != [] {
      StepKeepsNodeInv(n, events[0]);
      RunKeepsNodeInv(Step(n, events[0]), events[1..]);
    }
  }

  /**
   * In every run of one verifier, whatever `now` each call passes: one HTTP fetch at a time, successful
   * fetches stamped at least the smaller of max-age and floor apart, no request at all begun sooner than that
   * after the last success, no call waiting for nothing, and no call waiting for more than two fetches.
   */
  lemma FetchDiscipline(start: Node, events: seq<Event>)
    requires NodeStart(start) && NodeRun(start, events).Some?
    ensures var n := NodeRun(start, events).value;
            && 0 <= n.state.started - n.state.settled <= 1
            && Spaced(n.stamps, Min(n.options.maxAgeMs, n.options.minRefetchMs))
            && (n.state.inFlight.Some? && !n.state.landed && n.stamps != [] ==>
                  n.state.inFlight.value - n.stamps[|n.stamps| - 1] >= Min(n.options.maxAgeMs, n.options.minRefetchMs))
            && (forall id | id in n.tasks && n.tasks[id].Waiting? :: n.state.inFlight.Some?)
            && (forall id | id in n.tasks && !n.tasks[id].Unparsed? :: n.tasks[id].joins <= 2)
  {
    RunKeepsNodeInv(start, events);
    var n := NodeRun(start, events).value;
    forall id | id in n.tasks ensures TaskInv(n, n.tasks[id]) {
    }
  }

  /** A failed fetch neither removes nor restamps the keys held, and hands them to every waiter. */
  lemma FailureKeepsKeys(s: State, waiter: Task)
    requires s.inFlight.Some? && waiter.Waiting?
    ensures Settle(s, None).0.cache == s.cache
    ensures Release(Settle(s, None).0).1 == Settle(s, None).1
    ensures s.cache.Some? ==>
              Wake(waiter, Release(Settle(s, None).0).1) ==
              Looked(waiter.token, waiter.now, waiter.forced, waiter.joins,
                     KeyOf(s.cache.value.keys, waiter.token.kid), s.cache.value)
    ensures s.cache.None? ==>
              Wake(waiter, Release(Settle(s, None).0).1) ==
              Done(waiter.token, waiter.now, waiter.joins, Failure(UnknownKey), None)
  {
  }

  /**
   * When a lookup starts a request: exactly when none is in flight and there is nothing held, or what is
   * held has reached the age that applies.
   */
  lemma RequestStartedIff(o: Options, s: State, kid: Kid, now: int, forced: bool)
    ensures KeyFor(o, s, kid, now, forced).0.started > s.started <==>
            && s.inFlight.None?
            && (s.cache.None? || now - s.cache.value.fetchedAtMs >= (if forced then o.minRefetchMs else o.maxAgeMs))
  {
  }

  /**
   * What the floor and the max-age throttle. Once a lookup's request has settled, a later lookup of the same kind
   * starts another exactly when the request failed, however short the time since, or the keys it brought have
   * reached the age that applies: a failure moves no stamp.
   */
  lemma FailureDoesNotThrottle(
      o: Options, s: State, kid: Kid, now: int, forced: bool, response: Option<Response>, later: int)
    requires s.inFlight.None? && now <= later
    requires KeyFor(o, s, kid, now, forced).0.started > s.started
    ensures var settled := Release(Settle(KeyFor(o, s, kid, now, forced).0, response).0).0;
            && settled.inFlight.None?
            && (KeyFor(o, settled, kid, later, forced).0.started == settled.started + 1 <==>
                response.None? || later - now >= (if forced then o.minRefetchMs else o.maxAgeMs))
  {
  }
}
