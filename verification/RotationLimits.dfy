/** Where the guarantee ends: runs that reject a genuine live token, for all settings that do not fit. */
module RotationLimits {
  import opened Common
  import opened Contracts
  import opened KeyRotation
  import opened Claims
  import Signing = RotationProtocol
  import opened JwksVerifier
  import opened RotationSystem
  import opened RotationGuarantee

  lemma {:induction false} NowGrows(c: Signing.Config, s: Signing.Signer, steps: seq<Signing.Step>)
    ensures s.now <= Signing.Run(c, s, steps).now
    decreases |steps|
  {
    if steps != [] {
      NowGrows(c, Signing.Apply(c, s, steps[0]), steps[1..]);
    }
  }

  lemma SmoothStart(y: System, fetchMs: int)
    requires Start(y)
    ensures SmoothlyReachable(y, fetchMs)
  {
    forall v | v in y.nodes ensures NodeSmooth(y.signer.now, y.nodes[v], fetchMs) {
      assert NodeStart(y.nodes[v]);
    }
    assert IsRun([y]) && SmoothRun([y], fetchMs);
    assert [y][|[y]| - 1] == y;
  }

  lemma SmoothNext(y: System, m: Move, fetchMs: int)
    requires SmoothlyReachable(y, fetchMs) && Allowed(y, m) && Smooth(Next(y, m), fetchMs)
    ensures SmoothlyReachable(Next(y, m), fetchMs)
  {
    var run: seq<System> :| SmoothRun(run, fetchMs) && y == run[|run| - 1];
    var z := Next(y, m);
    assert IsMove(y, m, z);
    LongerRun(run, z);
    SmoothLonger(run, z, fetchMs);
    assert (run + [z])[|run + [z]| - 1] == z;
  }

  lemma SmoothLonger(run: seq<System>, z: System, fetchMs: int)
    requires SmoothRun(run, fetchMs) && IsRun(run + [z]) && Smooth(z, fetchMs)
    ensures SmoothRun(run + [z], fetchMs)
  {
    forall k | 0 <= k < |run + [z]| ensures Smooth((run + [z])[k], fetchMs) {
      if k < |run| {
        assert (run + [z])[k] == run[k];
      }
    }
  }

  lemma {:induction false} SmoothSigning(y: System, steps: seq<Signing.Step>, fetchMs: int)
    requires SmoothlyReachable(y, fetchMs) && Signing.HonestRun(y.config, y.signer, steps)
    requires Smooth(y.(signer := Signing.Run(y.config, y.signer, steps)), fetchMs)
    ensures SmoothlyReachable(y.(signer := Signing.Run(y.config, y.signer, steps)), fetchMs)
    decreases |steps|
  {
    if steps == [] {
      assert y.(signer := Signing.Run(y.config, y.signer, steps)) == y;
    } else {
      var z := Next(y, AtSigner(steps[0]));
      NowGrows(y.config, z.signer, steps[1..]);
      var last := y.(signer := Signing.Run(y.config, y.signer, steps));
      forall v | v in z.nodes ensures NodeSmooth(z.signer.now, z.nodes[v], fetchMs) {
        assert NodeSmooth(last.signer.now, last.nodes[v], fetchMs);
      }
      SmoothNext(y, AtSigner(steps[0]), fetchMs);
      SmoothSigning(z, steps[1..], fetchMs);
    }
  }

  /** A signer with a key `b` retained from some earlier rotation. */
  function Beginning(): Signing.Signer {
    Signing.Signer(0, KeyEnv("a", PrivateKey("private-a", "public-a"), "public-a", map["b" := "stale-b"]),
                   map["a" := -WAIT_MS, "b" := -WAIT_MS], map[], {}, {})
  }

  function StaleSnapshot(): Signing.Snapshot {
    Signing.Snapshot(0, map["a" := "public-a", "b" := "stale-b"])
  }

  /** It serves both keys, then withdraws `b` and publishes a new key under the same kid; a relay keeps the answer. */
  function ReuseSteps(relayMs: nat): seq<Signing.Step> {
    [Signing.Serve, Signing.Retire("b", -RETENTION_WAIT_SECONDS * 1000),
     Signing.Publish(KeyPair("b", NextKey(), "public-b")), Signing.Tick(relayMs)]
  }

  function Reused(relayMs: nat): Signing.Signer {
    Signing.Signer(relayMs, KeyEnv("a", PrivateKey("private-a", "public-a"), "public-a", map["b" := "public-b"]),
                   map["a" := -WAIT_MS, "b" := 0], map[], {}, {StaleSnapshot()})
  }

  lemma ReuseSigning(c: Signing.Config, relayMs: nat) returns (steps: seq<Signing.Step>)
    ensures Signing.HonestRun(c, Beginning(), steps) && Signing.Run(c, Beginning(), steps) == Reused(relayMs)
  {
    steps := ReuseSteps(relayMs);
    var s0 := Beginning();
    var s1 := Signing.Apply(c, s0, steps[0]);
    var s2 := Signing.Apply(c, s1, steps[1]);
    var s3 := Signing.Apply(c, s2, steps[2]);
    var s4 := Signing.Apply(c, s3, steps[3]);
    assert s0.env.Published() == StaleSnapshot().keys;
    assert s1.served == {StaleSnapshot()};
    assert s2.env.retired == map[] && s2.publishedAt == map["a" := -WAIT_MS];
    assert s4 == Reused(relayMs);
    var states := [s0, s1, s2, s3, s4];
    assert forall k :: 0 <= k < 4 ==> Signing.HonestStep(c, states[k], steps[k], states[k + 1]);
    Signing.RunPasses(c, states, steps, 0);
  }

  /** When the new key may sign, it signs a token. */
  lemma ReuseSigns(c: Signing.Config, relayMs: nat) returns (steps: seq<Signing.Step>, i: Signing.Issued)
    requires c.accessTtl == ACCESS_TOKEN_TTL_SECONDS
    ensures Signing.HonestRun(c, Reused(relayMs), steps)
    ensures var s := Signing.Run(c, Reused(relayMs), steps);
            && s.now == LateAt(relayMs) == i.at && s.served == {StaleSnapshot()}
            && i in s.issued && i.token.kid == "b" && i.token.signedUnder == "public-b"
            && i.token.alg == JWT_SIGNING_ALGORITHM
            && AcceptableAt(i.claims, c.issuer, i.at) && !ExpiredAt(i.claims, i.at)
  {
    steps := LateSteps(relayMs);
    var s0 := Reused(relayMs);
    var s1 := Signing.Apply(c, s0, steps[0]);
    var s2 := Signing.Apply(c, s1, steps[1]);
    var s3 := Signing.Apply(c, s2, steps[2]);
    i := Signing.IssueToken(c, s2.env, s2.now, steps[2]);
    assert s2.env.signingKeyId == "b" && s2.now == LateAt(relayMs);
    var states := [s0, s1, s2, s3];
    assert forall k :: 0 <= k < 3 ==> Signing.HonestStep(c, states[k], steps[k], states[k + 1]);
    Signing.RunPasses(c, states, steps, 0);
  }

  /** One verifier beside such a signer. */
  function One(options: Options, relayMs: nat, signer: Signing.Signer, n: Node): System {
    System(ConfigOf(options), relayMs, signer, map[0 := n])
  }

  function ConfigOf(options: Options): Signing.Config {
    Signing.Config(options.issuer, ACCESS_TOKEN_TTL_SECONDS)
  }

  lemma OneSigns(options: Options, relayMs: nat, s: Signing.Signer, n: Node, steps: seq<Signing.Step>, fetchMs: int)
    requires SmoothlyReachable(One(options, relayMs, s, n), fetchMs)
    requires Signing.HonestRun(ConfigOf(options), s, steps)
    requires NodeSmooth(Signing.Run(ConfigOf(options), s, steps).now, n, fetchMs)
    ensures SmoothlyReachable(One(options, relayMs, Signing.Run(ConfigOf(options), s, steps), n), fetchMs)
  {
    SmoothSigning(One(options, relayMs, s, n), steps, fetchMs);
  }

  lemma OneMoves(options: Options, relayMs: nat, signer: Signing.Signer, n: Node, e: Event, fetchMs: int)
    requires SmoothlyReachable(One(options, relayMs, signer, n), fetchMs)
    requires Allowed(One(options, relayMs, signer, n), AtVerifier(0, e)) && NodeSmooth(signer.now, Step(n, e), fetchMs)
    ensures SmoothlyReachable(One(options, relayMs, signer, Step(n, e)), fetchMs)
  {
    var y := One(options, relayMs, signer, n);
    assert y.nodes[0 := Step(n, e)] == One(options, relayMs, signer, Step(n, e)).nodes;
    SmoothNext(y, AtVerifier(0, e), fetchMs);
  }

  /** The first call, made as soon as the relay's answer is as old as it may get. */
  function Asking(options: Options, relayMs: nat): Node {
    Node(options, State(None, Some(relayMs), false, 1, 0), map[0 := Waiting(EarlyToken(), relayMs, false, 1)], [])
  }

  lemma IdleReached(options: Options, relayMs: nat, fetchMs: int)
    requires options.issuer != ""
    ensures SmoothlyReachable(One(options, relayMs, Reused(relayMs), Idle(options)), fetchMs)
  {
    SmoothStart(One(options, relayMs, Beginning(), Idle(options)), fetchMs);
    var steps := ReuseSigning(ConfigOf(options), relayMs);
    OneSigns(options, relayMs, Beginning(), Idle(options), steps, fetchMs);
  }

  lemma AskingReachable(options: Options, relayMs: nat, fetchMs: int)
    requires options.issuer != "" && fetchMs > 0
    ensures SmoothlyReachable(One(options, relayMs, Reused(relayMs), Asking(options, relayMs)), fetchMs)
  {
    IdleReached(options, relayMs, fetchMs);
    var e := VerifyCalled(0, Some(EarlyToken()), relayMs);
    assert Step(Idle(options), e) == Asking(options, relayMs);
    OneMoves(options, relayMs, Reused(relayMs), Idle(options), e, fetchMs);
  }

  function StaleCache(relayMs: nat): KeyCache {
    KeyCache(StaleSnapshot().keys, relayMs, 0)
  }

  function StaleResponse(): Response {
    Response([ToJwk("a", RsaKey("public-a", JWT_MIN_RSA_KEY_BITS)),
              ToJwk("b", RsaKey("stale-b", JWT_MIN_RSA_KEY_BITS))], 0)
  }

  lemma StaleIsAuthentic(y: System, startedAt: int)
    requires StaleSnapshot() in y.signer.served && startedAt - y.relayMs <= 0
    ensures Authentic(y, startedAt, StaleResponse()) && Imported(StaleResponse().document) == StaleSnapshot().keys
  {
    var document := StaleResponse().document;
    assert document[0] in document && document[1] in document;
    assert Lists(document, StaleSnapshot().keys);
    PublishedDocumentRoundTrips(document, StaleSnapshot().keys);
  }

  lemma StaleArrives(options: Options, relayMs: nat, signer: Signing.Signer, n: Node, fetchMs: int) returns (m: Node)
    requires SmoothlyReachable(One(options, relayMs, signer, n), fetchMs)
    requires StaleSnapshot() in signer.served && NodeSmooth(signer.now, n, fetchMs)
    requires n.state.inFlight == Some(relayMs) && !n.state.landed
    ensures SmoothlyReachable(One(options, relayMs, signer, m), fetchMs) && NodeSmooth(signer.now, m, fetchMs)
    ensures m.options == n.options && m.state.cache == Some(StaleCache(relayMs)) && m.state.landed && m.tasks == n.tasks
  {
    var e := FetchLands(Some(StaleResponse()));
    StaleIsAuthentic(One(options, relayMs, signer, n), relayMs);
    OneMoves(options, relayMs, signer, n, e, fetchMs);
    m := Step(n, e);
  }

  /** That answer lands and is released, whenever it does. */
  lemma StaleLands(options: Options, relayMs: nat, signer: Signing.Signer, n: Node, fetchMs: int) returns (m: Node)
    requires SmoothlyReachable(One(options, relayMs, signer, n), fetchMs)
    requires StaleSnapshot() in signer.served && NodeSmooth(signer.now, n, fetchMs)
    requires n.state.inFlight == Some(relayMs) && !n.state.landed
    ensures SmoothlyReachable(One(options, relayMs, signer, m), fetchMs)
    ensures m.options == n.options && m.state.cache == Some(StaleCache(relayMs)) && m.state.inFlight.None?
    ensures m.state.settled == |m.stamps| && m.tasks.Keys == n.tasks.Keys
    ensures forall id | id in n.tasks :: m.tasks[id] == Wake(n.tasks[id], Some(StaleCache(relayMs)))
  {
    var landed := StaleArrives(options, relayMs, signer, n, fetchMs);
    OneMoves(options, relayMs, signer, landed, FetchReleases, fetchMs);
    m := Step(landed, FetchReleases);
  }

  /** A new token that is live now. */
  predicate JustIssued(options: Options, signer: Signing.Signer, i: Signing.Issued) {
    && i in signer.issued && i.token.kid == "b" && i.token.signedUnder == "public-b"
    && i.token.alg == JWT_SIGNING_ALGORITHM && i.at == signer.now
    && AcceptableAt(i.claims, options.issuer, signer.now) && !ExpiredAt(i.claims, signer.now)
  }

  /** The signer gets to that token beside a verifier that may wait for it. */
  lemma LateSigner(options: Options, relayMs: nat, n: Node, fetchMs: int)
      returns (signer: Signing.Signer, i: Signing.Issued)
    requires SmoothlyReachable(One(options, relayMs, Reused(relayMs), n), fetchMs)
    requires NodeSmooth(LateAt(relayMs), n, fetchMs)
    ensures SmoothlyReachable(One(options, relayMs, signer, n), fetchMs)
    ensures signer.now == LateAt(relayMs) && StaleSnapshot() in signer.served && JustIssued(options, signer, i)
  {
    var steps;
    steps, i := ReuseSigns(ConfigOf(options), relayMs);
    signer := Signing.Run(ConfigOf(options), Reused(relayMs), steps);
    OneSigns(options, relayMs, Reused(relayMs), n, steps, fetchMs);
  }

  /** A call that found the older key under the kid ends there: it is no unknown kid, and nothing is fetched. */
  lemma StaleKeyRejects(
      options: Options, relayMs: nat, signer: Signing.Signer, n: Node, i: Signing.Issued, fetchMs: int)
      returns (y: System)
    requires SmoothlyReachable(One(options, relayMs, signer, n), fetchMs) && n.options == options
    requires JustIssued(options, signer, i) && 1 in n.tasks && n.tasks[1].Looked? && n.tasks[1].token == i.token
    requires n.tasks[1].now == signer.now && n.tasks[1].key == Some("stale-b")
    ensures SmoothlyReachable(y, fetchMs) && !AlwaysAccepts(y) && SetUp(y, options, relayMs)
  {
    SmoothNow(One(options, relayMs, signer, n), fetchMs);
    assert NodeSmooth(signer.now, One(options, relayMs, signer, n).nodes[0], fetchMs);
    OneMoves(options, relayMs, signer, n, TaskResumed(1), fetchMs);
    var m := Step(n, TaskResumed(1));
    y := One(options, relayMs, signer, m);
    assert m.tasks[1].Done? && m.tasks[1].outcome == Failure(BadSignature);
    assert Presented(y, 0, 1, i);
  }

  /** A call that still finds the stale document fresh. */
  lemma FreshCallRejects(
      options: Options, relayMs: nat, signer: Signing.Signer, n: Node, i: Signing.Issued, fetchMs: int)
      returns (y: System)
    requires SmoothlyReachable(One(options, relayMs, signer, n), fetchMs) && n.options == options
    requires JustIssued(options, signer, i) && 1 !in n.tasks && n.state.inFlight.None?
    requires n.state.cache == Some(StaleCache(relayMs)) && signer.now - relayMs < options.maxAgeMs
    ensures SmoothlyReachable(y, fetchMs) && !AlwaysAccepts(y) && SetUp(y, options, relayMs)
  {
    SmoothNow(One(options, relayMs, signer, n), fetchMs);
    assert NodeSmooth(signer.now, One(options, relayMs, signer, n).nodes[0], fetchMs);
    var e := VerifyCalled(1, Some(i.token), signer.now);
    OneMoves(options, relayMs, signer, n, e, fetchMs);
    y := StaleKeyRejects(options, relayMs, signer, Step(n, e), i, fetchMs);
  }

  /** Where a cache outlives the wait: the answer lands at once, and is still fresh when the new key signs. */
  lemma FreshCacheRejects(options: Options, relayMs: nat, fetchMs: int) returns (y: System)
    requires options.issuer != "" && fetchMs > 0 && !AgesFit(options.maxAgeMs, relayMs)
    ensures SmoothlyReachable(y, fetchMs) && !AlwaysAccepts(y) && SetUp(y, options, relayMs)
  {
    AskingReachable(options, relayMs, fetchMs);
    var n := StaleLands(options, relayMs, Reused(relayMs), Asking(options, relayMs), fetchMs);
    var signer, i := LateSigner(options, relayMs, n, fetchMs);
    y := FreshCallRejects(options, relayMs, signer, n, i, fetchMs);
  }

  /** A call that waits for the stale document. */
  lemma WaitingCallRejects(
      options: Options, relayMs: nat, signer: Signing.Signer, n: Node, i: Signing.Issued, fetchMs: int)
      returns (y: System)
    requires SmoothlyReachable(One(options, relayMs, signer, n), fetchMs)
    requires n == Asking(options, relayMs) && signer.now - relayMs < fetchMs
    requires JustIssued(options, signer, i) && StaleSnapshot() in signer.served
    ensures SmoothlyReachable(y, fetchMs) && !AlwaysAccepts(y) && SetUp(y, options, relayMs)
  {
    var e := VerifyCalled(1, Some(i.token), signer.now);
    OneMoves(options, relayMs, signer, n, e, fetchMs);
    var m := StaleLands(options, relayMs, signer, Step(n, e), fetchMs);
    y := StaleKeyRejects(options, relayMs, signer, m, i, fetchMs);
  }

  /** Where a fetch outlasts the wait: the new key signs while the answer is on its way, and a call waits for it. */
  lemma SlowFetchRejects(options: Options, relayMs: nat, fetchMs: int) returns (y: System)
    requires options.issuer != "" && fetchMs > 0 && fetchMs + relayMs > WAIT_MS
    ensures SmoothlyReachable(y, fetchMs) && !AlwaysAccepts(y) && SetUp(y, options, relayMs)
  {
    AskingReachable(options, relayMs, fetchMs);
    var n := Asking(options, relayMs);
    var signer, i := LateSigner(options, relayMs, n, fetchMs);
    y := WaitingCallRejects(options, relayMs, signer, n, i, fetchMs);
  }

  lemma SmoothNow(y: System, fetchMs: int)
    requires SmoothlyReachable(y, fetchMs)
    ensures Smooth(y, fetchMs)
  {
  }

  /** A deployment: the platform's lifetime, relays up to an age, verifiers up to a max-age. */
  predicate SetUp(y: System, options: Options, relayMs: nat) {
    && y.config == ConfigOf(options)
    && y.relayMs == relayMs && MaxAges(y, options.maxAgeMs)
  }

  /**
   * Rotation never costs a spurious rejection, end to end, exactly when two sums fit the propagation wait. Over all
   * runs in which no fetch fails and each is over in less than `fetchMs`, every finished `verify` of a genuine live
   * token accepts it if and only if the max-age and the relay's age fit together, and so do the duration of a fetch
   * and the relay's age. A forced refetch does not help beyond that: where a kid is reused, the older key is found.
   */
  lemma EveryVerifyAcceptsIff(options: Options, relayMs: nat, fetchMs: int)
    requires options.issuer != ""
    ensures (forall y | SmoothlyReachable(y, fetchMs) && SetUp(y, options, relayMs) :: AlwaysAccepts(y))
            <==> fetchMs <= 0 || (AgesFit(options.maxAgeMs, relayMs) && fetchMs + relayMs <= WAIT_MS)
  {
    if fetchMs <= 0 {
      forall y | SmoothlyReachable(y, fetchMs) && SetUp(y, options, relayMs) ensures AlwaysAccepts(y) {
        var run: seq<System> :| SmoothRun(run, fetchMs) && y == run[|run| - 1];
        NothingFinishes(run, |run| - 1, fetchMs);
        forall v | v in y.nodes ensures UntouchedNode(y.nodes[v]) {
        }
      }
    } else if AgesFit(options.maxAgeMs, relayMs) && fetchMs + relayMs <= WAIT_MS {
      forall y | SmoothlyReachable(y, fetchMs) && SetUp(y, options, relayMs) ensures AlwaysAccepts(y) {
        FittingAccepts(y, fetchMs);
      }
    } else if !AgesFit(options.maxAgeMs, relayMs) {
      var y := FreshCacheRejects(options, relayMs, fetchMs);
    } else {
      var y := SlowFetchRejects(options, relayMs, fetchMs);
    }
  }
}
