/**
 * The signer as a state machine over one clock: it issues tokens, serves JWKS documents and moves its
 * key environment by the three planners, never forced.
 */
module RotationProtocol {
  import opened Contracts
  import opened KeyRotation
  import opened Claims

  /** A compact JWS, already parsed. `signedUnder` is the public key its signature verifies under. */
  datatype Jws = Jws(alg: string, kid: Kid, signedUnder: Pem, payload: Payload)

  /** A token the signer issued, with the instant it did so, and what it was asked for. */
  datatype Issued = Issued(token: Jws, claims: JwtClaims, at: int, asked: Step)

  /** A JWKS document, with the instant the endpoint produced it. */
  datatype Snapshot = Snapshot(at: int, keys: map<Kid, Pem>)

  /** `accessTtl` is the configured `ACCESS_TOKEN_TTL_SECONDS`, whatever the constant says. */
  datatype Config = Config(issuer: string, accessTtl: int)

  /** `publishedAt`, `stoppedAt`, `issued` and `served` are history: no step reads them to decide. */
  datatype Signer = Signer(
    now: int,
    env: KeyEnv,
    publishedAt: map<Kid, int>,
    stoppedAt: map<Kid, int>,
    issued: set<Issued>,
    served: set<Snapshot>)

  datatype Step =
    | Tick(ms: nat)
    | Issue(sub: string, sty: SubjectType, cid: string, sid: string, ttl: int)
    | Publish(incoming: KeyPair)
    | Activate(kid: Kid, privateKey: PrivateKey, publishedAt: int)
    | Retire(kid: Kid, deactivatedAt: int)
    | Serve

  /** What `issueAccessToken` signs at `now`. */
  function IssueToken(c: Config, env: KeyEnv, now: int, step: Step): Issued
    requires step.Issue?
  {
    var iat := now / 1000;
    var claims := JwtClaims(c.issuer, step.sub, step.sty, step.cid, step.sid, iat, iat + step.ttl);
    Issued(Jws(JWT_SIGNING_ALGORITHM, env.signingKeyId, env.privateKey.publicHalf, ToPayload(claims)),
           claims, now, step)
  }

  /** The seven claims a request asks for, member by member, and no others. */
  function AskedPayload(c: Config, asked: Step, at: int): Payload
    requires asked.Issue?
  {
    map["iss" := Claims.Text(c.issuer), "sub" := Claims.Text(asked.sub), "cid" := Claims.Text(asked.cid),
        "sid" := Claims.Text(asked.sid), "sty" := Claims.Text(if asked.sty == User then "user" else "service"),
        "iat" := Whole(at / 1000), "exp" := Whole(at / 1000 + asked.ttl)]
  }

  /** One step. A planner that refuses leaves the environment as it was. */
  function Apply(c: Config, s: Signer, step: Step): Signer {
    match step
    case Tick(ms) => s.(now := s.now + ms)
    case Issue(_, _, _, _, _) => s.(issued := s.issued + {IssueToken(c, s.env, s.now, step)})
    case Serve => s.(served := s.served + {Snapshot(s.now, s.env.Published())})
    case Publish(incoming) =>
      var plan := PlanPublish(s.env, incoming, s.now);
      if plan.Failure? then s
      else s.(env := plan.value.next,
              publishedAt := s.publishedAt[incoming.kid := s.now],
              stoppedAt := s.stoppedAt - {incoming.kid})
    case Activate(kid, privateKey, publishedAt) =>
      var plan := Activated(s.env, kid, privateKey, publishedAt, s.now, false);
      if plan.Failure? then s
      else s.(env := plan.value.next, stoppedAt := s.stoppedAt[s.env.signingKeyId := s.now])
    case Retire(kid, deactivatedAt) =>
      var plan := Retired(s.env, kid, deactivatedAt, s.now, false);
      if plan.Failure? then s
      else s.(env := plan.value.next, publishedAt := s.publishedAt - {kid})
  }

  /** What the operator and the issuing service owe: true times or later, a paired private key, a usable kid. */
  predicate Honest(c: Config, s: Signer, step: Step) {
    match step
    case Issue(sub, _, cid, sid, ttl) => sub != "" && cid != "" && sid != "" && 0 < ttl <= c.accessTtl
    case Publish(incoming) => incoming.kid != ""
    case Activate(kid, privateKey, publishedAt) =>
      && (kid in s.publishedAt ==> s.publishedAt[kid] <= publishedAt)
      && (kid in s.env.retired ==> privateKey.publicHalf == s.env.retired[kid])
    case Retire(kid, deactivatedAt) => kid in s.stoppedAt ==> s.stoppedAt[kid] <= deactivatedAt
    case _ => true
  }

  function Run(c: Config, s: Signer, steps: seq<Step>): Signer
    decreases |steps|
  {
    if steps == [] then s else Run(c, Apply(c, s, steps[0]), steps[1..])
  }

  predicate HonestRun(c: Config, s: Signer, steps: seq<Step>)
    decreases |steps|
  {
    steps == [] || (Honest(c, s, steps[0]) && HonestRun(c, Apply(c, s, steps[0]), steps[1..]))
  }

  lemma RunHead(c: Config, s: Signer, steps: seq<Step>, k: nat)
    requires k < |steps|
    ensures Run(c, s, steps[k..]) == Run(c, Apply(c, s, steps[k]), steps[k + 1..])
    ensures HonestRun(c, s, steps[k..]) <==>
            Honest(c, s, steps[k]) && HonestRun(c, Apply(c, s, steps[k]), steps[k + 1..])
  {
    assert steps[k..][1..] == steps[k + 1..];
  }

  /** A deployment whose signer has been published long enough and has issued nothing yet. */
  predicate Init(c: Config, s: Signer) {
    && c.issuer != "" && c.accessTtl > 0
    && s.env.SignerApart() && "" !in s.env.Published()
    && s.env.privateKey.publicHalf == s.env.publicKey
    && s.publishedAt.Keys == s.env.Published().Keys
    && (forall k | k in s.publishedAt :: s.publishedAt[k] <= s.now)
    && AddSeconds(s.publishedAt[s.env.signingKeyId], PROPAGATION_WAIT_SECONDS) <= s.now
    && s.stoppedAt == map[] && s.issued == {} && s.served == {}
  }

  ghost predicate Reachable(c: Config, s: Signer) {
    exists s0, steps :: Init(c, s0) && HonestRun(c, s0, steps) && s == Run(c, s0, steps)
  }

  // ---- the invariant ------------------------------------------------------------------------

  /** The environment is coherent, and its signer finished propagating. */
  predicate EnvInv(s: Signer) {
    && s.env.SignerApart() && "" !in s.env.Published()
    && s.env.privateKey.publicHalf == s.env.publicKey
    && s.publishedAt.Keys == s.env.Published().Keys
    && (forall k | k in s.publishedAt :: s.publishedAt[k] <= s.now)
    && AddSeconds(s.publishedAt[s.env.signingKeyId], PROPAGATION_WAIT_SECONDS) <= s.now
    && (forall k | k in s.stoppedAt :: s.stoppedAt[k] <= s.now)
  }

  /** Issued tokens are genuine and bounded by the configured lifetime. */
  predicate IssuedInv(c: Config, s: Signer) {
    c.issuer != "" && forall i | i in s.issued ::
      && i.at <= s.now && i.claims.iss == c.issuer && WellFormed(i.claims)
      && i.token.alg == JWT_SIGNING_ALGORITHM && i.token.payload == ToPayload(i.claims) && i.token.kid != ""
      && i.claims.iat == i.at / 1000 && i.claims.iat < i.claims.exp <= i.claims.iat + c.accessTtl
      && AnswersAsked(c, i)
  }

  /** The token says what it was asked to say, about whom it was asked. */
  predicate AnswersAsked(c: Config, i: Issued) {
    && i.asked.Issue? && i.token.payload == AskedPayload(c, i.asked, i.at)
    && i.claims.iss == c.issuer && i.claims.sub == i.asked.sub && i.claims.sty == i.asked.sty
    && i.claims.cid == i.asked.cid && i.claims.sid == i.asked.sid
    && i.claims.iat == i.at / 1000 && i.claims.exp == i.at / 1000 + i.asked.ttl
  }

  /** A live token's key is published, and the retention clock of a key that stopped signing covers it. */
  predicate Retained(s: Signer, i: Issued) {
    || ExpiredAt(i.claims, s.now)
    || (&& i.token.kid in s.env.Published() && s.env.Published()[i.token.kid] == i.token.signedUnder
        && (i.token.kid == s.env.signingKeyId
            || (i.token.kid in s.stoppedAt && i.at <= s.stoppedAt[i.token.kid])))
  }

  /** A document served after a key's publication carries that key. */
  predicate Propagated(s: Signer, q: Snapshot)
    requires s.publishedAt.Keys == s.env.Published().Keys
  {
    forall k | k in s.env.Published() && s.publishedAt[k] < q.at ::
      k in q.keys && q.keys[k] == s.env.Published()[k]
  }

  /** The document can verify this token: issued within the propagation wait of it, live when it was served. */
  predicate Covers(q: Snapshot, i: Issued) {
    i.at < AddSeconds(q.at, PROPAGATION_WAIT_SECONDS) && !ExpiredAt(i.claims, q.at) ==>
      i.token.kid in q.keys && q.keys[i.token.kid] == i.token.signedUnder
  }

  predicate ServedInv(s: Signer)
    requires s.publishedAt.Keys == s.env.Published().Keys
  {
    forall q | q in s.served :: q.at <= s.now && "" !in q.keys && Propagated(s, q)
  }

  predicate Inv(c: Config, s: Signer) {
    && EnvInv(s) && IssuedInv(c, s) && ServedInv(s)
    && (forall i | i in s.issued :: Retained(s, i))
    && (forall q, i | q in s.served && i in s.issued :: Covers(q, i))
  }

  lemma InitInv(c: Config, s: Signer)
    requires Init(c, s)
    ensures Inv(c, s)
  {
  }

  lemma TickKeepsInv(c: Config, s: Signer, ms: nat)
    requires Inv(c, s)
    ensures Inv(c, Apply(c, s, Tick(ms)))
  {
    var t := Apply(c, s, Tick(ms));
    forall i | i in t.issued ensures Retained(t, i) {
      assert Retained(s, i);
    }
    forall q | q in t.served ensures Propagated(t, q) {
      assert Propagated(s, q);
    }
  }

  /** Issuing adds one token: under the current key, with the very claims asked for. */
  lemma IssueAnswersAsked(c: Config, s: Signer, sub: string, sty: SubjectType, cid: string, sid: string, ttl: int)
    ensures var issue := Issue(sub, sty, cid, sid, ttl);
            && IssueToken(c, s.env, s.now, issue) in Apply(c, s, issue).issued
            && forall i | i in Apply(c, s, issue).issued - s.issued ::
                 && i.at == s.now && i.asked == issue
                 && i.token.alg == "RS256" && i.token.kid == s.env.signingKeyId
                 && i.token.signedUnder == s.env.privateKey.publicHalf
                 && i.token.payload ==
                    map["iss" := Claims.Text(c.issuer), "sub" := Claims.Text(sub), "cid" := Claims.Text(cid),
                        "sid" := Claims.Text(sid), "sty" := Claims.Text(if sty == User then "user" else "service"),
                        "iat" := Whole(s.now / 1000), "exp" := Whole(s.now / 1000 + ttl)]
                 && i.claims == JwtClaims(c.issuer, sub, sty, cid, sid, s.now / 1000, s.now / 1000 + ttl)
  {
    var i := IssueToken(c, s.env, s.now, Issue(sub, sty, cid, sid, ttl));
    assert i.token.payload == AskedPayload(c, i.asked, s.now);
  }

  /** A new token is covered by every document young enough: its signer was published before them. */
  lemma IssueKeepsInv(c: Config, s: Signer, step: Step)
    requires Inv(c, s) && step.Issue? && Honest(c, s, step)
    ensures Inv(c, Apply(c, s, step))
  {
    var t := Apply(c, s, step);
    var latest := IssueToken(c, s.env, s.now, step);
    assert s.env.signingKeyId in s.env.Published();
    assert latest.token.payload == AskedPayload(c, step, s.now);
    assert AnswersAsked(c, latest);
    forall i | i in t.issued ensures Retained(t, i) {
      if i != latest {
        assert Retained(s, i);
      }
    }
    forall q | q in t.served ensures Propagated(t, q) && Covers(q, latest) {
      assert Propagated(s, q);
    }
  }

  /** A document served now carries every live token's key. */
  lemma ServeKeepsInv(c: Config, s: Signer)
    requires Inv(c, s)
    ensures Inv(c, Apply(c, s, Serve))
  {
    var t := Apply(c, s, Serve);
    var latest := Snapshot(s.now, s.env.Published());
    forall i | i in t.issued ensures Retained(t, i) && Covers(latest, i) {
      assert Retained(s, i);
    }
    forall q | q in t.served ensures Propagated(t, q) {
      if q != latest {
        assert Propagated(s, q);
      }
    }
  }

  /** A published kid is new to JWKS, so no live token and no earlier document can contradict it. */
  lemma PublishKeepsInv(c: Config, s: Signer, step: Step)
    requires Inv(c, s) && step.Publish? && Honest(c, s, step)
    ensures Inv(c, Apply(c, s, step))
  {
    var t := Apply(c, s, step);
    if t != s {
      var k := step.incoming.kid;
      assert t.env.Published() == s.env.Published()[k := step.incoming.publicKey];
      forall i | i in t.issued ensures Retained(t, i) {
        assert Retained(s, i);
      }
      forall q | q in t.served ensures Propagated(t, q) {
        assert Propagated(s, q);
      }
    }
  }

  /** Activation moves the signer without moving JWKS, and starts the outgoing key's retention clock. */
  lemma ActivateKeepsInv(c: Config, s: Signer, step: Step)
    requires Inv(c, s) && step.Activate? && Honest(c, s, step)
    ensures Inv(c, Apply(c, s, step))
  {
    var t := Apply(c, s, step);
    if t != s {
      ActivateKeepsPublished(s.env, step.kid, step.privateKey, step.publishedAt, s.now, false);
      assert step.kid in s.env.Published();
      forall i | i in t.issued ensures Retained(t, i) {
        assert Retained(s, i);
      }
      forall q | q in t.served ensures Propagated(t, q) {
        assert Propagated(s, q);
      }
    }
  }

  /** By the time a key may be withdrawn, every token it signed has passed `exp` plus the leeway. */
  lemma RetireKeepsInv(c: Config, s: Signer, step: Step)
    requires Inv(c, s) && step.Retire? && Honest(c, s, step)
    requires c.accessTtl <= ACCESS_TOKEN_TTL_SECONDS
    ensures Inv(c, Apply(c, s, step))
  {
    var t := Apply(c, s, step);
    if t != s {
      RetireWithdrawsOneKey(s.env, step.kid, step.deactivatedAt, s.now, false);
      forall i | i in t.issued ensures Retained(t, i) {
        assert Retained(s, i);
        if step.kid in s.stoppedAt && i.at <= s.stoppedAt[step.kid] {
          LifetimeIsExact(i.claims, i.at, i.claims.exp - i.claims.iat, s.now);
        }
      }
      forall q | q in t.served ensures Propagated(t, q) {
        assert Propagated(s, q);
      }
    }
  }

  lemma StepKeepsInv(c: Config, s: Signer, step: Step)
    requires Inv(c, s) && Honest(c, s, step) && c.accessTtl <= ACCESS_TOKEN_TTL_SECONDS
    ensures Inv(c, Apply(c, s, step))
  {
    match step
    case Tick(ms) => TickKeepsInv(c, s, ms);
    case Issue(_, _, _, _, _) => IssueKeepsInv(c, s, step);
    case Publish(_) => PublishKeepsInv(c, s, step);
    case Activate(_, _, _) => ActivateKeepsInv(c, s, step);
    case Retire(_, _) => RetireKeepsInv(c, s, step);
    case Serve => ServeKeepsInv(c, s);
  }

  lemma {:induction false} RunKeepsInv(c: Config, s: Signer, steps: seq<Step>)
    requires Inv(c, s) && HonestRun(c, s, steps) && c.accessTtl <= ACCESS_TOKEN_TTL_SECONDS
    ensures Inv(c, Run(c, s, steps))
    decreases steps
  {
    if steps != [] {
      StepKeepsInv(c, s, steps[0]);
      RunKeepsInv(c, Apply(c, s, steps[0]), steps[1..]);
    }
  }

  lemma ReachableInv(c: Config, s: Signer)
    requires Reachable(c, s) && c.accessTtl <= ACCESS_TOKEN_TTL_SECONDS
    ensures Inv(c, s)
  {
    var s0, steps :| Init(c, s0) && HonestRun(c, s0, steps) && s == Run(c, s0, steps);
    InitInv(c, s0);
    RunKeepsInv(c, s0, steps);
  }

  // ---- main results -------------------------------------------------------------------------

  /** Every token a verifier would still accept has its own key in JWKS, under its own kid. */
  predicate NoTokenStranded(c: Config, s: Signer) {
    forall i | i in s.issued && AcceptableAt(i.claims, c.issuer, s.now) ::
      i.token.kid in s.env.Published() && s.env.Published()[i.token.kid] == i.token.signedUnder
  }

  /**
   * A document is enough for every token issued less than one propagation wait after it was served,
   * if that token was still live at that moment: over all runs, with kids reused and keys re-activated.
   */
  lemma DocumentCoverage(c: Config, s: Signer, q: Snapshot, i: Issued)
    requires Reachable(c, s) && c.accessTtl <= ACCESS_TOKEN_TTL_SECONDS
    requires q in s.served && i in s.issued
    requires i.at < AddSeconds(q.at, PROPAGATION_WAIT_SECONDS) && !ExpiredAt(i.claims, q.at)
    ensures i.token.kid in q.keys && q.keys[i.token.kid] == i.token.signedUnder
  {
    ReachableInv(c, s);
    assert Covers(q, i);
  }

  /** A run that strands a token when the configured lifetime exceeds the constant the wait is built on. */
  function StrandingRun(ttl: int): seq<Step> {
    var b := PrivateKey("private-b", "public-b");
    [Publish(KeyPair("b", b, "public-b")), Tick(PROPAGATION_WAIT_SECONDS * 1000),
     Issue("user", User, "client", "session", ttl), Activate("b", b, 0),
     Tick(RETENTION_WAIT_SECONDS * 1000), Retire("a", PROPAGATION_WAIT_SECONDS * 1000)]
  }

  function StrandingStart(): Signer {
    Signer(0, KeyEnv("a", PrivateKey("private-a", "public-a"), "public-a", map[]),
           map["a" := -PROPAGATION_WAIT_SECONDS * 1000], map[], {}, {})
  }

  predicate HonestStep(c: Config, s: Signer, step: Step, t: Signer) {
    Honest(c, s, step) && t == Apply(c, s, step)
  }

  /** Honest steps through a list of states are an honest run to the last one. */
  lemma {:induction false} RunPasses(c: Config, states: seq<Signer>, steps: seq<Step>, k: nat)
    requires |states| == |steps| + 1 && k <= |steps|
    requires forall j :: 0 <= j < |steps| ==> HonestStep(c, states[j], steps[j], states[j + 1])
    ensures HonestRun(c, states[k], steps[k..]) && Run(c, states[k], steps[k..]) == states[|steps|]
    ensures k == 0 ==> HonestRun(c, states[0], steps) && Run(c, states[0], steps) == states[|steps|]
    decreases |steps| - k
  {
    assert steps[0..] == steps;
    if k < |steps| {
      assert HonestStep(c, states[k], steps[k], states[k + 1]);
      RunPasses(c, states, steps, k + 1);
      RunHead(c, states[k], steps, k);
    }
  }

  /** The states that run passes through end with the key of a live token withdrawn. */
  lemma StrandingEnds(c: Config, ttl: int) returns (states: seq<Signer>)
    requires c.issuer != "" && c.accessTtl == ttl > ACCESS_TOKEN_TTL_SECONDS
    ensures |states| == 7 && states[0] == StrandingStart()
    ensures forall k :: 0 <= k < 6 ==> HonestStep(c, states[k], StrandingRun(ttl)[k], states[k + 1])
    ensures !NoTokenStranded(c, states[6])
  {
    var steps := StrandingRun(ttl);
    var s0 := StrandingStart();
    var s1 := Apply(c, s0, steps[0]);
    var s2 := Apply(c, s1, steps[1]);
    var s3 := Apply(c, s2, steps[2]);
    var s4 := Apply(c, s3, steps[3]);
    var s5 := Apply(c, s4, steps[4]);
    var s6 := Apply(c, s5, steps[5]);
    states := [s0, s1, s2, s3, s4, s5, s6];
    var i := IssueToken(c, s2.env, s2.now, steps[2]);
    assert i.token.kid == "a" && i.claims.exp == 360 + ttl;
    assert s4.env.signingKeyId == "b" && s4.env.retired == map["a" := "public-a"];
    assert s6.env.Published() == map["b" := "public-b"];
    assert i in s6.issued && AcceptableAt(i.claims, c.issuer, s6.now);
  }

  lemma LongLifetimeStrands(issuer: string, ttl: int)
    requires issuer != "" && ttl > ACCESS_TOKEN_TTL_SECONDS
    ensures var c := Config(issuer, ttl);
            && Init(c, StrandingStart()) && HonestRun(c, StrandingStart(), StrandingRun(ttl))
            && !NoTokenStranded(c, Run(c, StrandingStart(), StrandingRun(ttl)))
  {
    var c := Config(issuer, ttl);
    var states := StrandingEnds(c, ttl);
    RunPasses(c, states, StrandingRun(ttl), 0);
  }

  /**
   * The retention guarantee holds in every run exactly when the configured access-token lifetime is at
   * most the constant: the environment schema puts no upper bound on it, the retention wait relies on it.
   */
  lemma RetentionIffLifetimeBounded(c: Config)
    requires c.issuer != "" && c.accessTtl > 0
    ensures (forall s | Reachable(c, s) :: NoTokenStranded(c, s)) <==> c.accessTtl <= ACCESS_TOKEN_TTL_SECONDS
  {
    var ttl := c.accessTtl;
    if ttl <= ACCESS_TOKEN_TTL_SECONDS {
      forall s | Reachable(c, s) ensures NoTokenStranded(c, s) {
        RetentionTheorem(c, s);
      }
    } else {
      LongLifetimeStrands(c.issuer, ttl);
      assert Reachable(c, Run(c, StrandingStart(), StrandingRun(ttl)));
    }
  }

  lemma RetentionTheorem(c: Config, s: Signer)
    requires Reachable(c, s) && c.accessTtl <= ACCESS_TOKEN_TTL_SECONDS
    ensures NoTokenStranded(c, s)
    ensures s.env.SignerApart() && s.env.privateKey.publicHalf == s.env.publicKey
  {
    ReachableInv(c, s);
    forall i | i in s.issued && AcceptableAt(i.claims, c.issuer, s.now)
      ensures i.token.kid in s.env.Published() && s.env.Published()[i.token.kid] == i.token.signedUnder
    {
      assert Retained(s, i);
    }
  }

  /** The retention wait cannot be one second shorter: the last token of a key lives up to its end, less the floor. */
  lemma RetentionWaitIsTight(c: JwtClaims, deactivatedAt: int)
    requires c.iat == deactivatedAt / 1000 && c.exp == c.iat + ACCESS_TOKEN_TTL_SECONDS
    ensures forall now :: !ExpiredAt(c, now) <==>
            now < AddSeconds(deactivatedAt, RETENTION_WAIT_SECONDS) - deactivatedAt % 1000
  {
  }
}
