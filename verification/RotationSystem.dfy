/** The signer of `RotationProtocol` and any number of JWKS verifiers, stepping under one clock. */
module RotationSystem {
  import opened Common
  import opened Contracts
  import opened KeyRotation
  import opened Claims
  import Signing = RotationProtocol
  import opened JwksVerifier

  /** `relayMs` is how old a document an intermediary may answer with: the endpoint marks its answers public. */
  datatype System = System(config: Signing.Config, relayMs: nat, signer: Signing.Signer, nodes: map<nat, Node>)

  datatype Move =
    | AtSigner(step: Signing.Step)
    | AtVerifier(node: nat, event: Event)

  /** A response carries a document the signer served after the fetch began, or one a relay kept from before. */
  ghost predicate Authentic(y: System, startedAt: int, response: Response) {
    exists q :: q in y.signer.served && q.at == response.servedAtMs && startedAt - y.relayMs <= q.at
                && Lists(response.document, q.keys)
  }

  /** Verifiers read the shared clock, and responses come from the signer's endpoint. */
  ghost predicate Allowed(y: System, m: Move) {
    match m
    case AtSigner(step) => Signing.Honest(y.config, y.signer, step)
    case AtVerifier(v, e) =>
      && v in y.nodes && Possible(y.nodes[v], e)
      && (e.VerifyCalled? ==> e.now == y.signer.now && (e.token.Some? ==> e.token.value.kid != ""))
      && (e.FetchLands? && e.response.Some? ==> Authentic(y, y.nodes[v].state.inFlight.value, e.response.value))
  }

  ghost function Next(y: System, m: Move): System
    requires Allowed(y, m)
  {
    match m
    case AtSigner(step) => y.(signer := Signing.Apply(y.config, y.signer, step))
    case AtVerifier(v, e) => y.(nodes := y.nodes[v := Step(y.nodes[v], e)])
  }

  ghost predicate IsMove(y: System, m: Move, z: System) {
    Allowed(y, m) && z == Next(y, m)
  }

  ghost predicate CanMove(y: System, z: System) {
    exists m :: IsMove(y, m, z)
  }

  ghost predicate Start(y: System) {
    && Signing.Init(y.config, y.signer)
    && forall v | v in y.nodes :: NodeStart(y.nodes[v]) && y.nodes[v].options.issuer == y.config.issuer
  }

  /** A run, as the list of states it passes through. */
  ghost predicate IsRun(run: seq<System>) {
    && run != [] && Start(run[0])
    && forall k :: 0 < k < |run| ==> CanMove(run[k - 1], run[k])
  }

  ghost predicate Reachable(y: System) {
    exists run :: IsRun(run) && y == run[|run| - 1]
  }

  lemma StartReachable(y: System)
    requires Start(y)
    ensures Reachable(y)
  {
    assert IsRun([y]);
    assert [y][|[y]| - 1] == y;
  }

  lemma LongerRun(run: seq<System>, z: System)
    requires IsRun(run) && CanMove(run[|run| - 1], z)
    ensures IsRun(run + [z])
  {
    var longer := run + [z];
    forall k | 0 < k < |longer| ensures CanMove(longer[k - 1], longer[k]) {
      if k < |run| {
        assert CanMove(run[k - 1], run[k]);
      }
    }
  }

  lemma ReachableNext(y: System, m: Move)
    requires Reachable(y) && Allowed(y, m)
    ensures Reachable(Next(y, m))
  {
    var run: seq<System> :| IsRun(run) && y == run[|run| - 1];
    assert IsMove(y, m, Next(y, m));
    LongerRun(run, Next(y, m));
    assert (run + [Next(y, m)])[|run + [Next(y, m)]| - 1] == Next(y, m);
  }

  // ---- the invariant --------------------------------------------------------------------------

  /** A cached key set is a document the signer served, at most a relay's age before its stamp. */
  predicate FromSigner(y: System, cache: KeyCache) {
    && Signing.Snapshot(cache.servedAtMs, cache.keys) in y.signer.served
    && cache.fetchedAtMs <= cache.servedAtMs + y.relayMs && cache.fetchedAtMs <= y.signer.now
  }

  predicate TaskFromSigner(y: System, options: Options, task: Task) {
    match task
    case Waiting(token, now, _, _) => now <= y.signer.now
    case Looked(token, now, _, _, key, source) =>
      now <= y.signer.now && FromSigner(y, source) && key == KeyOf(source.keys, token.kid)
    case Done(token, now, _, outcome, consulted) =>
      && now <= y.signer.now
      && (consulted.Some? ==>
            && FromSigner(y, consulted.value)
            && outcome == Verdict(options, token, now, KeyOf(consulted.value.keys, token.kid)))
      && (consulted.None? ==> outcome == Failure(UnknownKey))
    case Unparsed => true
  }

  predicate NodeFromSigner(y: System, n: Node) {
    && n.options.issuer == y.config.issuer
    && (n.state.cache.Some? ==> FromSigner(y, n.state.cache.value))
    && (n.state.inFlight.Some? ==> n.state.inFlight.value <= y.signer.now)
    && (forall id | id in n.tasks :: TaskFromSigner(y, n.options, n.tasks[id]))
  }

  predicate SystemInv(y: System) {
    && Signing.Inv(y.config, y.signer)
    && forall v | v in y.nodes :: NodeFromSigner(y, y.nodes[v])
  }

  lemma SignerMoveKeepsInv(y: System, step: Signing.Step)
    requires SystemInv(y) && Allowed(y, AtSigner(step)) && y.config.accessTtl <= ACCESS_TOKEN_TTL_SECONDS
    ensures SystemInv(Next(y, AtSigner(step)))
  {
    var z := Next(y, AtSigner(step));
    Signing.StepKeepsInv(y.config, y.signer, step);
    assert y.signer.served <= z.signer.served && y.signer.now <= z.signer.now;
    forall v | v in z.nodes ensures NodeFromSigner(z, z.nodes[v]) {
      assert NodeFromSigner(y, y.nodes[v]);
      forall id | id in z.nodes[v].tasks ensures TaskFromSigner(z, z.nodes[v].options, z.nodes[v].tasks[id]) {
        assert TaskFromSigner(y, y.nodes[v].options, y.nodes[v].tasks[id]);
      }
    }
  }

  /** An authentic response installs exactly the published map. */
  lemma AuthenticCache(y: System, n: Node, response: Response)
    requires SystemInv(y) && n.state.inFlight.Some? && n.state.inFlight.value <= y.signer.now
    requires Authentic(y, n.state.inFlight.value, response)
    ensures FromSigner(y, Settle(n.state, Some(response)).1.value)
  {
    var q :| q in y.signer.served && q.at == response.servedAtMs && n.state.inFlight.value - y.relayMs <= q.at
             && Lists(response.document, q.keys);
    PublishedDocumentRoundTrips(response.document, q.keys);
    assert q == Signing.Snapshot(response.servedAtMs, Imported(response.document));
  }

  lemma EventKeepsNode(y: System, n: Node, e: Event)
    requires SystemInv(y) && NodeFromSigner(y, n) && Possible(n, e)
    requires e.VerifyCalled? ==> e.now == y.signer.now
    requires e.FetchLands? && e.response.Some? ==> Authentic(y, n.state.inFlight.value, e.response.value)
    ensures NodeFromSigner(y, Step(n, e))
  {
    var m := Step(n, e);
    if e.FetchLands? && e.response.Some? {
      AuthenticCache(y, n, e.response.value);
    }
    forall id | id in m.tasks ensures TaskFromSigner(y, m.options, m.tasks[id]) {
      if id in n.tasks {
        assert TaskFromSigner(y, n.options, n.tasks[id]);
      }
    }
  }

  lemma VerifierMoveKeepsInv(y: System, v: nat, e: Event)
    requires SystemInv(y) && Allowed(y, AtVerifier(v, e))
    ensures SystemInv(Next(y, AtVerifier(v, e)))
  {
    var z := Next(y, AtVerifier(v, e));
    assert NodeFromSigner(y, y.nodes[v]);
    EventKeepsNode(y, y.nodes[v], e);
    forall w | w in z.nodes ensures NodeFromSigner(z, z.nodes[w]) {
      assert NodeFromSigner(y, z.nodes[w]) by {
        assert w != v ==> NodeFromSigner(y, y.nodes[w]);
      }
      forall id | id in z.nodes[w].tasks ensures TaskFromSigner(z, z.nodes[w].options, z.nodes[w].tasks[id]) {
        assert TaskFromSigner(y, z.nodes[w].options, z.nodes[w].tasks[id]);
      }
    }
  }

  lemma {:induction false} RunInv(run: seq<System>, k: nat)
    requires IsRun(run) && k < |run| && run[0].config.accessTtl <= ACCESS_TOKEN_TTL_SECONDS
    ensures SystemInv(run[k])
  {
    if k > 0 {
      RunInv(run, k - 1);
      ConfigConstant(run, k - 1);
      assert CanMove(run[k - 1], run[k]);
      var m :| IsMove(run[k - 1], m, run[k]);
      match m
      case AtSigner(step) => SignerMoveKeepsInv(run[k - 1], step);
      case AtVerifier(v, e) => VerifierMoveKeepsInv(run[k - 1], v, e);
    }
  }

  lemma ReachableInv(y: System)
    requires Reachable(y) && y.config.accessTtl <= ACCESS_TOKEN_TTL_SECONDS
    ensures SystemInv(y)
  {
    var run: seq<System> :| IsRun(run) && y == run[|run| - 1];
    var k := |run| - 1;
    assert run[k].config == run[0].config by {
      ConfigConstant(run, k);
    }
    RunInv(run, k);
  }

  lemma {:induction false} ConfigConstant(run: seq<System>, k: nat)
    requires IsRun(run) && k < |run|
    ensures run[k].config == run[0].config && run[k].relayMs == run[0].relayMs
  {
    if k > 0 {
      ConfigConstant(run, k - 1);
      assert CanMove(run[k - 1], run[k]);
    }
  }

  // ---- main results ---------------------------------------------------------------------------

  /** The token is genuine: the signer has issued it by now. */
  predicate Genuine(y: System, i: Signing.Issued) {
    i in y.signer.issued
  }

  /** A document that can verify the token: issued within the propagation wait, live when served. */
  predicate RecentFor(cache: KeyCache, i: Signing.Issued) {
    && i.at < AddSeconds(cache.servedAtMs, PROPAGATION_WAIT_SECONDS)
    && !ExpiredAt(i.claims, cache.servedAtMs)
  }

  lemma RightKey(y: System, cache: KeyCache, i: Signing.Issued)
    requires SystemInv(y) && Genuine(y, i) && FromSigner(y, cache) && RecentFor(cache, i)
    ensures KeyOf(cache.keys, i.token.kid) == Some(i.token.signedUnder)
  {
    assert Signing.Covers(Signing.Snapshot(cache.servedAtMs, cache.keys), i);
  }

  lemma GenuineVerdict(y: System, o: Options, cache: KeyCache, i: Signing.Issued, now: int)
    requires SystemInv(y) && Genuine(y, i) && FromSigner(y, cache) && RecentFor(cache, i)
    requires o.issuer == y.config.issuer && AcceptableAt(i.claims, o.issuer, now)
    ensures Verdict(o, i.token, now, KeyOf(cache.keys, i.token.kid)) == Success(i.claims)
  {
    RightKey(y, cache, i);
    ReaderInvertsSigner(i.token.payload, i.claims);
  }

  /**
   * Rotation never rejects a genuine token. In every run, with rotations, kid reuse and fetches of any
   * duration interleaved, a finished `verify` of a token the signer issued and whose claims were acceptable
   * when it was presented answers those claims, unless it had no key set to consult at all, or the one it
   * consulted was served a whole propagation wait before the token was issued, or after it expired.
   */
  lemma NoSpuriousRejection(run: seq<System>, k: nat, v: nat, id: nat, i: Signing.Issued)
    requires IsRun(run) && k < |run| && run[0].config.accessTtl <= ACCESS_TOKEN_TTL_SECONDS
    requires var y := run[k];
             && v in y.nodes && id in y.nodes[v].tasks && y.nodes[v].tasks[id].Done?
             && Genuine(y, i) && y.nodes[v].tasks[id].token == i.token
             && AcceptableAt(i.claims, y.config.issuer, y.nodes[v].tasks[id].now)
    ensures var task := run[k].nodes[v].tasks[id];
            || task.outcome == Success(i.claims)
            || task.consulted == None
            || !RecentFor(task.consulted.value, i)
  {
    RunInv(run, k);
    var y := run[k];
    var n := y.nodes[v];
    var task := n.tasks[id];
    assert NodeFromSigner(y, n);
    assert TaskFromSigner(y, n.options, task);
    if task.consulted.Some? && RecentFor(task.consulted.value, i) {
      GenuineVerdict(y, n.options, task.consulted.value, i, task.now);
    }
  }

  /** The key set this verifier holds is younger than `maxAgeMs` at `now`. */
  predicate Fresh(n: Node, now: int) {
    n.state.cache.Some? && now - n.state.cache.value.fetchedAtMs < n.options.maxAgeMs
  }

  /** A fresh verifier accepts every live genuine token from what it holds, starting and joining no fetch. */
  predicate AcceptsLocally(n: Node, i: Signing.Issued, now: int) {
    var (s, task) := Begin(n.options, n.state, Some(i.token), now);
    && s == n.state && task.Looked? && task.joins == 0
    && Resume(n.options, n.state, task) ==
       (n.state, Done(i.token, now, 0, Success(i.claims), Some(task.source)))
  }

  ghost predicate FreshAlwaysSuffices(y: System) {
    forall v, i | v in y.nodes && Fresh(y.nodes[v], y.signer.now)
                  && Genuine(y, i) && AcceptableAt(i.claims, y.config.issuer, y.signer.now) ::
      AcceptsLocally(y.nodes[v], i, y.signer.now)
  }

  predicate MaxAges(y: System, maxAgeMs: int) {
    forall v | v in y.nodes :: y.nodes[v].options.maxAgeMs <= maxAgeMs
  }

  /** The verifiers' max-age and a relay's age together stay within the propagation wait, or nothing is ever fresh. */
  predicate AgesFit(maxAgeMs: int, relayMs: int) {
    maxAgeMs <= 0 || maxAgeMs + relayMs <= PROPAGATION_WAIT_SECONDS * 1000
  }

  lemma FreshAccepts(y: System, v: nat, i: Signing.Issued)
    requires SystemInv(y) && v in y.nodes && AgesFit(y.nodes[v].options.maxAgeMs, y.relayMs)
    requires Fresh(y.nodes[v], y.signer.now)
    requires Genuine(y, i) && AcceptableAt(i.claims, y.config.issuer, y.signer.now)
    ensures AcceptsLocally(y.nodes[v], i, y.signer.now)
  {
    var n := y.nodes[v];
    var cache := n.state.cache.value;
    assert NodeFromSigner(y, n);
    assert FromSigner(y, cache);
    assert i.at <= y.signer.now && Signing.Snapshot(cache.servedAtMs, cache.keys).at <= y.signer.now;
    assert RecentFor(cache, i);
    RightKey(y, cache, i);
    GenuineVerdict(y, n.options, cache, i, y.signer.now);
  }

  lemma FreshCacheSuffices(y: System)
    requires Reachable(y) && y.config.accessTtl <= ACCESS_TOKEN_TTL_SECONDS
    requires forall v | v in y.nodes :: AgesFit(y.nodes[v].options.maxAgeMs, y.relayMs)
    ensures FreshAlwaysSuffices(y)
  {
    ReachableInv(y);
    forall v, i | v in y.nodes && Fresh(y.nodes[v], y.signer.now)
                  && Genuine(y, i) && AcceptableAt(i.claims, y.config.issuer, y.signer.now)
      ensures AcceptsLocally(y.nodes[v], i, y.signer.now)
    {
      FreshAccepts(y, v, i);
    }
  }

  lemma {:induction false} SignerSteps(y: System, steps: seq<Signing.Step>)
    requires Reachable(y) && Signing.HonestRun(y.config, y.signer, steps)
    ensures Reachable(y.(signer := Signing.Run(y.config, y.signer, steps)))
    decreases |steps|
  {
    if steps == [] {
      assert y.(signer := Signing.Run(y.config, y.signer, steps)) == y;
    } else {
      ReachableNext(y, AtSigner(steps[0]));
      SignerSteps(Next(y, AtSigner(steps[0])), steps[1..]);
    }
  }

  function EarlyToken(): Signing.Jws {
    Signing.Jws(JWT_SIGNING_ALGORITHM, "a", "public-a", map[])
  }

  function EarlySnapshot(): Signing.Snapshot {
    Signing.Snapshot(0, map["a" := "public-a"])
  }

  function NextKey(): PrivateKey {
    PrivateKey("private-b", "public-b")
  }

  /** The signer serves `a` alone and publishes `b` at once; then as long goes by as a relay keeps answers. */
  function EarlySteps(relayMs: nat): seq<Signing.Step> {
    [Signing.Serve, Signing.Publish(KeyPair("b", NextKey(), "public-b")), Signing.Tick(relayMs)]
  }

  function Early(relayMs: nat): Signing.Signer {
    var s := Signing.StrandingStart();
    Signing.Signer(relayMs, s.env.(retired := map["b" := "public-b"]), s.publishedAt["b" := 0],
                   map[], {}, {EarlySnapshot()})
  }

  lemma EarlySigning(c: Signing.Config, relayMs: nat)
    ensures Signing.HonestRun(c, Signing.StrandingStart(), EarlySteps(relayMs))
    ensures Signing.Run(c, Signing.StrandingStart(), EarlySteps(relayMs)) == Early(relayMs)
  {
    var steps := EarlySteps(relayMs);
    var s0 := Signing.StrandingStart();
    var s1 := Signing.Apply(c, s0, steps[0]);
    var s2 := Signing.Apply(c, s1, steps[1]);
    var s3 := Signing.Apply(c, s2, steps[2]);
    assert s1.served == {EarlySnapshot()};
    assert s3 == Early(relayMs);
    assert forall k :: 0 <= k < 3 ==> Signing.HonestStep(c, [s0, s1, s2, s3][k], steps[k], [s0, s1, s2, s3][k + 1]);
    Signing.RunPasses(c, [s0, s1, s2, s3], steps, 0);
  }

  function Base(options: Options, relayMs: nat, node: Node): System {
    System(Signing.Config(options.issuer, ACCESS_TOKEN_TTL_SECONDS), relayMs, Early(relayMs), map[0 := node])
  }

  function EarlyCache(relayMs: nat): KeyCache {
    KeyCache(map["a" := "public-a"], relayMs, 0)
  }

  /** One verifier, from its first call to holding the relayed document. */
  function Idle(options: Options): Node {
    Node(options, INITIAL, map[], [])
  }

  function Fetching(options: Options, relayMs: nat): Node {
    Node(options, State(None, Some(relayMs), false, 1, 0), map[0 := Waiting(EarlyToken(), relayMs, false, 1)], [])
  }

  function Landed(options: Options, relayMs: nat): Node {
    Node(options, State(Some(EarlyCache(relayMs)), Some(relayMs), true, 1, 1),
         map[0 := Waiting(EarlyToken(), relayMs, false, 1)], [relayMs])
  }

  function Fetched(options: Options, relayMs: nat): Node {
    Node(options, State(Some(EarlyCache(relayMs)), None, false, 1, 1),
         map[0 := Looked(EarlyToken(), relayMs, false, 1, Some("public-a"), EarlyCache(relayMs))], [relayMs])
  }

  /** One verifier event between two such states. */
  lemma NodeMoves(options: Options, relayMs: nat, n: Node, e: Event, m: Node)
    requires Reachable(Base(options, relayMs, n)) && Allowed(Base(options, relayMs, n), AtVerifier(0, e))
             && Step(n, e) == m
    ensures Reachable(Base(options, relayMs, m))
  {
    var y := Base(options, relayMs, n);
    NodeReplaced(options, relayMs, n, e, m);
    ReachableNext(y, AtVerifier(0, e));
  }

  lemma NodeReplaced(options: Options, relayMs: nat, n: Node, e: Event, m: Node)
    requires Allowed(Base(options, relayMs, n), AtVerifier(0, e)) && Step(n, e) == m
    ensures Next(Base(options, relayMs, n), AtVerifier(0, e)) == Base(options, relayMs, m)
  {
    assert Base(options, relayMs, n).nodes[0 := m] == Base(options, relayMs, m).nodes;
  }

  lemma IdleReachable(options: Options, relayMs: nat)
    requires options.issuer != ""
    ensures Reachable(Base(options, relayMs, Idle(options)))
  {
    var y := Base(options, relayMs, Idle(options)).(signer := Signing.StrandingStart());
    StartReachable(y);
    EarlySigning(y.config, relayMs);
    SignerSteps(y, EarlySteps(relayMs));
  }

  lemma FetchBegins(options: Options, relayMs: nat)
    requires Reachable(Base(options, relayMs, Idle(options)))
    ensures Reachable(Base(options, relayMs, Fetching(options, relayMs)))
  {
    NodeMoves(options, relayMs, Idle(options), VerifyCalled(0, Some(EarlyToken()), relayMs),
              Fetching(options, relayMs));
  }

  lemma FetchIsAnswered(options: Options, relayMs: nat)
    requires Reachable(Base(options, relayMs, Fetching(options, relayMs)))
    ensures Reachable(Base(options, relayMs, Landed(options, relayMs)))
  {
    var response := Response([ToJwk("a", RsaKey("public-a", JWT_MIN_RSA_KEY_BITS))], 0);
    EarlyResponseInstalls(options, relayMs, response);
    NodeMoves(options, relayMs, Fetching(options, relayMs), FetchLands(Some(response)), Landed(options, relayMs));
  }

  lemma FetchIsReleased(options: Options, relayMs: nat)
    requires Reachable(Base(options, relayMs, Landed(options, relayMs)))
    ensures Reachable(Base(options, relayMs, Fetched(options, relayMs)))
  {
    assert Step(Landed(options, relayMs), FetchReleases).tasks == Fetched(options, relayMs).tasks;
    NodeMoves(options, relayMs, Landed(options, relayMs), FetchReleases, Fetched(options, relayMs));
  }

  lemma FetchedReachable(options: Options, relayMs: nat)
    requires options.issuer != ""
    ensures Reachable(Base(options, relayMs, Fetched(options, relayMs)))
  {
    IdleReachable(options, relayMs);
    FetchBegins(options, relayMs);
    FetchIsAnswered(options, relayMs);
    FetchIsReleased(options, relayMs);
  }

  lemma EarlyResponseInstalls(options: Options, relayMs: nat, response: Response)
    requires response == Response([ToJwk("a", RsaKey("public-a", JWT_MIN_RSA_KEY_BITS))], 0)
    ensures Authentic(Base(options, relayMs, Fetching(options, relayMs)), relayMs, response)
    ensures Step(Fetching(options, relayMs), FetchLands(Some(response))) == Landed(options, relayMs)
  {
    var jwk := ToJwk("a", RsaKey("public-a", JWT_MIN_RSA_KEY_BITS));
    assert jwk in [jwk];
    assert Lists([jwk], EarlySnapshot().keys);
    assert EarlySnapshot() in Early(relayMs).served;
    assert Imported([jwk]) == map["a" := "public-a"];
  }

  /** When `b` may sign: a propagation wait after it was published, or later where a relay keeps answers for longer. */
  function LateAt(relayMs: nat): nat {
    Max(relayMs, PROPAGATION_WAIT_SECONDS * 1000)
  }

  function LateSteps(relayMs: nat): seq<Signing.Step> {
    [Signing.Tick(LateAt(relayMs) - relayMs), Signing.Activate("b", NextKey(), 0),
     Signing.Issue("user", User, "client", "session", ACCESS_TOKEN_TTL_SECONDS)]
  }

  /** The signer waits until then, activates `b` and issues a token. */
  lemma LateSigning(c: Signing.Config, relayMs: nat) returns (i: Signing.Issued)
    requires c.accessTtl == ACCESS_TOKEN_TTL_SECONDS
    ensures Signing.HonestRun(c, Early(relayMs), LateSteps(relayMs))
    ensures var s := Signing.Run(c, Early(relayMs), LateSteps(relayMs));
            && s.now == LateAt(relayMs)
            && i in s.issued && i.token.kid == "b" && AcceptableAt(i.claims, c.issuer, s.now)
  {
    var steps := LateSteps(relayMs);
    var s0 := Early(relayMs);
    var s1 := Signing.Apply(c, s0, steps[0]);
    var s2 := Signing.Apply(c, s1, steps[1]);
    var s3 := Signing.Apply(c, s2, steps[2]);
    i := Signing.IssueToken(c, s2.env, s2.now, steps[2]);
    assert s2.env.signingKeyId == "b" && s2.now == LateAt(relayMs);
    assert forall k :: 0 <= k < 3 ==> Signing.HonestStep(c, [s0, s1, s2, s3][k], steps[k], [s0, s1, s2, s3][k + 1]);
    Signing.RunPasses(c, [s0, s1, s2, s3], steps, 0);
  }

  lemma LateReachable(options: Options, relayMs: nat) returns (y: System, i: Signing.Issued)
    requires options.issuer != ""
    ensures Reachable(y) && y.relayMs == relayMs && y.nodes == map[0 := Fetched(options, relayMs)]
    ensures y.config == Signing.Config(options.issuer, ACCESS_TOKEN_TTL_SECONDS)
    ensures y.signer.now == LateAt(relayMs)
    ensures i in y.signer.issued && i.token.kid == "b" && AcceptableAt(i.claims, y.config.issuer, y.signer.now)
  {
    var x := Base(options, relayMs, Fetched(options, relayMs));
    FetchedReachable(options, relayMs);
    i := LateSigning(x.config, relayMs);
    SignerSteps(x, LateSteps(relayMs));
    y := x.(signer := Signing.Run(x.config, x.signer, LateSteps(relayMs)));
  }

  lemma UnknownKidRefetches(n: Node, i: Signing.Issued, now: int)
    requires n.state.cache.Some? && i.token.kid !in n.state.cache.value.keys
    ensures !AcceptsLocally(n, i, now)
  {
  }

  /** With ages that do not fit, that cache is still fresh when `b` signs its first token, and cannot verify it. */
  lemma LateCacheMisses(options: Options, relayMs: nat) returns (y: System)
    requires options.issuer != "" && !AgesFit(options.maxAgeMs, relayMs)
    ensures Reachable(y) && y.config == Signing.Config(options.issuer, ACCESS_TOKEN_TTL_SECONDS) && y.relayMs == relayMs
    ensures MaxAges(y, options.maxAgeMs) && !FreshAlwaysSuffices(y)
  {
    var i;
    y, i := LateReachable(options, relayMs);
    var n := y.nodes[0];
    assert n.state.cache == Some(EarlyCache(relayMs));
    UnknownKidRefetches(n, i, y.signer.now);
    assert Genuine(y, i) && Fresh(n, y.signer.now);
  }

  ghost predicate Deployment(y: System, options: Options, relayMs: nat) {
    && Reachable(y) && y.config == Signing.Config(options.issuer, ACCESS_TOKEN_TTL_SECONDS)
    && y.relayMs == relayMs && MaxAges(y, options.maxAgeMs)
  }

  /**
   * An unexpired cache always holds the right key for every genuine live token, so that the unknown-kid path
   * is never taken, exactly when the max-age and the age of relayed answers together are at most the propagation
   * wait. The published 300 s is inside it on its own, and not together with a relay that keeps answers as long.
   */
  lemma FreshCacheSufficesIff(options: Options, relayMs: nat)
    requires options.issuer != ""
    ensures (forall y | Deployment(y, options, relayMs) :: FreshAlwaysSuffices(y))
                <==> AgesFit(options.maxAgeMs, relayMs)
    ensures AgesFit(JWKS_CACHE_MAX_AGE_SECONDS * 1000, 0)
    ensures !AgesFit(JWKS_CACHE_MAX_AGE_SECONDS * 1000, JWKS_CACHE_MAX_AGE_SECONDS * 1000)
  {
    if AgesFit(options.maxAgeMs, relayMs) {
      forall y | Deployment(y, options, relayMs) ensures FreshAlwaysSuffices(y) {
        FreshCacheSuffices(y);
      }
    } else {
      var y := LateCacheMisses(options, relayMs);
      assert Deployment(y, options, relayMs);
    }
  }

  /**
   * With a stale or empty cache and an endpoint that answers: the call waiting for the fetch accepts the
   * token as soon as it resumes, provided the token is still live when the document is served.
   */
  lemma FetchedKeySetAccepts(y: System, v: nat, id: nat, response: Response, i: Signing.Issued)
    requires Reachable(y) && y.config.accessTtl <= ACCESS_TOKEN_TTL_SECONDS
    requires Allowed(y, AtVerifier(v, FetchLands(Some(response))))
    requires id in y.nodes[v].tasks && y.nodes[v].tasks[id].Waiting? && y.nodes[v].tasks[id].token == i.token
    requires Genuine(y, i) && AcceptableAt(i.claims, y.config.issuer, y.nodes[v].tasks[id].now)
    requires i.at < AddSeconds(response.servedAtMs, PROPAGATION_WAIT_SECONDS)
             && !ExpiredAt(i.claims, response.servedAtMs)
    ensures var landed := Step(y.nodes[v], FetchLands(Some(response)));
            Possible(landed, FetchReleases)
    ensures var n := Step(Step(y.nodes[v], FetchLands(Some(response))), FetchReleases);
            && n.tasks[id].Looked? && Possible(n, TaskResumed(id))
            && Step(n, TaskResumed(id)).tasks[id].Done?
            && Step(n, TaskResumed(id)).tasks[id].outcome == Success(i.claims)
            && Step(n, TaskResumed(id)).state == n.state
  {
    ReachableInv(y);
    var n := y.nodes[v];
    assert NodeFromSigner(y, n);
    AuthenticCache(y, n, response);
    var cache := Settle(n.state, Some(response)).1.value;
    RightKey(y, cache, i);
    GenuineVerdict(y, n.options, cache, i, n.tasks[id].now);
  }

  /**
   * The rotation a cache has not seen yet. A call whose kid is not among keys as old as the floor goes back to the
   * endpoint, and when that answers it accepts the genuine token.
   */
  lemma UnknownKidRecovers(y: System, v: nat, id: nat, response: Response, i: Signing.Issued)
    requires Reachable(y) && y.config.accessTtl <= ACCESS_TOKEN_TTL_SECONDS && v in y.nodes && id in y.nodes[v].tasks
    requires var n := y.nodes[v];
             var task := n.tasks[id];
             && task.Looked? && task.key == None && !task.forced && task.token == i.token
             && (n.state.cache.Some? ==> task.now - n.state.cache.value.fetchedAtMs >= n.options.minRefetchMs)
             && Genuine(y, i) && AcceptableAt(i.claims, y.config.issuer, task.now)
    requires var z := Next(y, AtVerifier(v, TaskResumed(id)));
             Allowed(z, AtVerifier(v, FetchLands(Some(response))))
    requires i.at < AddSeconds(response.servedAtMs, PROPAGATION_WAIT_SECONDS)
    requires !ExpiredAt(i.claims, response.servedAtMs)
    ensures var m := Step(Step(Step(y.nodes[v], TaskResumed(id)), FetchLands(Some(response))), FetchReleases);
            && m.tasks[id].Looked? && Step(m, TaskResumed(id)).tasks[id].Done?
            && Step(m, TaskResumed(id)).tasks[id].outcome == Success(i.claims)
  {
    var z := Next(y, AtVerifier(v, TaskResumed(id)));
    ReachableNext(y, AtVerifier(v, TaskResumed(id)));
    assert z.nodes[v].tasks[id].Waiting? && z.nodes[v].tasks[id].token == i.token;
    FetchedKeySetAccepts(z, v, id, response, i);
  }

  /** Whatever a verifier accepts, the signer once published that key under that kid, and the claims are its own. */
  lemma AcceptedWasPublished(run: seq<System>, k: nat, v: nat, id: nat)
    requires IsRun(run) && k < |run| && run[0].config.accessTtl <= ACCESS_TOKEN_TTL_SECONDS
    requires var y := run[k];
             v in y.nodes && id in y.nodes[v].tasks && y.nodes[v].tasks[id].Done?
             && y.nodes[v].tasks[id].outcome.Success?
    ensures var task := run[k].nodes[v].tasks[id];
            && task.token.alg == "RS256" && task.token.payload == ToPayload(task.outcome.value)
            && AcceptableAt(task.outcome.value, run[k].config.issuer, task.now)
            && exists q :: q in run[k].signer.served && task.token.kid in q.keys
                           && q.keys[task.token.kid] == task.token.signedUnder
  {
    RunInv(run, k);
    var y := run[k];
    var n := y.nodes[v];
    var task := n.tasks[id];
    assert NodeFromSigner(y, n);
    assert TaskFromSigner(y, n.options, task);
    var cache := task.consulted.value;
    ReaderInvertsSigner(task.token.payload, task.outcome.value);
    var q := Signing.Snapshot(cache.servedAtMs, cache.keys);
    assert q in y.signer.served && task.token.kid in q.keys;
  }
}
