/**
 * What a deployment may promise end to end: with fetches that answer in bounded time, when does every `verify`
 * of a genuine live token accept? The bounds are ones it can set: max-age, relay age, and the duration of a fetch.
 */
module RotationGuarantee {
  import opened Common
  import opened Contracts
  import opened KeyRotation
  import opened Claims
  import Signing = RotationProtocol
  import opened JwksVerifier
  import opened RotationSystem

  const WAIT_MS := PROPAGATION_WAIT_SECONDS * 1000

  // ---- smooth runs ----------------------------------------------------------------------------

  /** No fetch has failed, and none has been under way for `fetchMs`. */
  predicate NodeSmooth(now: int, n: Node, fetchMs: int) {
    n.state.settled == |n.stamps| && (n.state.inFlight.Some? ==> now - n.state.inFlight.value < fetchMs)
  }

  predicate Smooth(y: System, fetchMs: int) {
    forall v | v in y.nodes :: NodeSmooth(y.signer.now, y.nodes[v], fetchMs)
  }

  ghost predicate SmoothRun(run: seq<System>, fetchMs: int) {
    IsRun(run) && forall k :: 0 <= k < |run| ==> Smooth(run[k], fetchMs)
  }

  ghost predicate SmoothlyReachable(y: System, fetchMs: int) {
    exists run :: SmoothRun(run, fetchMs) && y == run[|run| - 1]
  }

  predicate Fits(y: System) {
    forall v | v in y.nodes :: AgesFit(y.nodes[v].options.maxAgeMs, y.relayMs)
  }

  // ---- the invariant --------------------------------------------------------------------------

  /** The key set is a propagation wait too young to miss the key of any token issued by `now`. */
  predicate Young(cache: KeyCache, now: int) {
    now < cache.servedAtMs + WAIT_MS
  }

  /** Whatever a call looked into was young for it, and so is what is held while it is not finished. */
  predicate TaskYoung(n: Node, task: Task) {
    match task
    case Looked(_, now, _, _, _, source) =>
      Young(source, now) && n.state.cache.Some? && Young(n.state.cache.value, now)
    case Done(_, now, _, _, consulted) => consulted.Some? && Young(consulted.value, now)
    case _ => true
  }

  predicate NodeYoung(n: Node) {
    && (n.state.landed ==>
          && n.state.inFlight.Some? && n.state.cache.Some?
          && n.state.cache.value.fetchedAtMs == n.state.inFlight.value)
    && (forall id | id in n.tasks :: TaskYoung(n, n.tasks[id]))
  }

  /** A document whose fetch began less than `fetchMs` ago is young for every call made by now. */
  lemma PromptIsYoung(y: System, cache: KeyCache, now: int, fetchMs: int)
    requires FromSigner(y, cache) && now <= y.signer.now && y.signer.now - cache.fetchedAtMs < fetchMs
    requires fetchMs + y.relayMs <= WAIT_MS
    ensures Young(cache, now)
  {
  }

  /** A cache that has not expired is young for the call that reads it. */
  lemma FreshIsYoung(y: System, n: Node, now: int)
    requires n.state.cache.Some? && FromSigner(y, n.state.cache.value) && now == y.signer.now
    requires AgesFit(n.options.maxAgeMs, y.relayMs) && !MayRefetch(n.options, n.state.cache.value, now, false)
    ensures Young(n.state.cache.value, now)
  {
  }

  lemma CallKeepsYoung(y: System, n: Node, e: Event)
    requires NodeFromSigner(y, n) && NodeYoung(n) && Possible(n, e) && AgesFit(n.options.maxAgeMs, y.relayMs)
    requires e.VerifyCalled? && e.now == y.signer.now
    ensures NodeYoung(Step(n, e))
  {
    var m := Step(n, e);
    forall id | id in m.tasks ensures TaskYoung(m, m.tasks[id]) {
      if id == e.id {
        if n.state.cache.Some? && !MayRefetch(n.options, n.state.cache.value, e.now, false) {
          FreshIsYoung(y, n, e.now);
        }
      } else {
        assert TaskYoung(n, n.tasks[id]);
      }
    }
  }

  lemma ResumeKeepsYoung(n: Node, e: Event)
    requires NodeYoung(n) && Possible(n, e) && e.TaskResumed?
    ensures NodeYoung(Step(n, e))
  {
    var m := Step(n, e);
    assert TaskYoung(n, n.tasks[e.id]);
    forall id | id in m.tasks ensures TaskYoung(m, m.tasks[id]) {
      assert TaskYoung(n, n.tasks[id]);
    }
  }

  lemma LandingKeepsYoung(y: System, n: Node, e: Event, fetchMs: int)
    requires SystemInv(y) && NodeFromSigner(y, n) && NodeYoung(n) && Possible(n, e)
    requires e.FetchLands? && e.response.Some? && Authentic(y, n.state.inFlight.value, e.response.value)
    requires y.signer.now - n.state.inFlight.value < fetchMs && fetchMs + y.relayMs <= WAIT_MS
    ensures NodeYoung(Step(n, e))
  {
    var m := Step(n, e);
    AuthenticCache(y, n, e.response.value);
    forall id | id in m.tasks ensures TaskYoung(m, m.tasks[id]) {
      assert TaskYoung(n, n.tasks[id]) && TaskFromSigner(y, n.options, n.tasks[id]);
      if m.tasks[id].Looked? {
        PromptIsYoung(y, m.state.cache.value, m.tasks[id].now, fetchMs);
      }
    }
  }

  lemma ReleaseKeepsYoung(y: System, n: Node, e: Event, fetchMs: int)
    requires NodeFromSigner(y, n) && NodeYoung(n) && Possible(n, e) && e.FetchReleases?
    requires y.signer.now - n.state.inFlight.value < fetchMs && fetchMs + y.relayMs <= WAIT_MS
    ensures NodeYoung(Step(n, e))
  {
    var m := Step(n, e);
    forall id | id in m.tasks ensures TaskYoung(m, m.tasks[id]) {
      assert TaskYoung(n, n.tasks[id]) && TaskFromSigner(y, n.options, n.tasks[id]);
      if n.tasks[id].Waiting? {
        PromptIsYoung(y, n.state.cache.value, n.tasks[id].now, fetchMs);
      }
    }
  }

  predicate SystemYoung(y: System) {
    forall v | v in y.nodes :: NodeYoung(y.nodes[v])
  }

  lemma EventKeepsYoung(y: System, v: nat, e: Event, fetchMs: int)
    requires SystemInv(y) && SystemYoung(y) && Smooth(y, fetchMs) && Fits(y) && fetchMs + y.relayMs <= WAIT_MS
    requires Allowed(y, AtVerifier(v, e)) && Smooth(Next(y, AtVerifier(v, e)), fetchMs)
    ensures NodeYoung(Step(y.nodes[v], e))
  {
    var n := y.nodes[v];
    assert NodeFromSigner(y, n) && NodeYoung(n) && NodeSmooth(y.signer.now, n, fetchMs);
    assert NodeSmooth(y.signer.now, Next(y, AtVerifier(v, e)).nodes[v], fetchMs);
    match e
    case VerifyCalled(_, _, _) => CallKeepsYoung(y, n, e);
    case TaskResumed(_) => ResumeKeepsYoung(n, e);
    case FetchLands(_) => LandingKeepsYoung(y, n, e, fetchMs);
    case FetchReleases => ReleaseKeepsYoung(y, n, e, fetchMs);
  }

  lemma MoveKeepsYoung(y: System, m: Move, fetchMs: int)
    requires SystemInv(y) && SystemYoung(y) && Smooth(y, fetchMs) && Fits(y) && fetchMs + y.relayMs <= WAIT_MS
    requires Allowed(y, m) && Smooth(Next(y, m), fetchMs)
    ensures SystemYoung(Next(y, m))
  {
    if m.AtVerifier? {
      EventKeepsYoung(y, m.node, m.event, fetchMs);
    }
  }

  /** Options and relays are settings: a move changes neither. */
  lemma MoveKeepsFits(y: System, m: Move)
    requires Allowed(y, m) && Fits(Next(y, m))
    ensures Fits(y) && Next(y, m).relayMs == y.relayMs
  {
    var z := Next(y, m);
    forall v | v in y.nodes ensures AgesFit(y.nodes[v].options.maxAgeMs, y.relayMs) {
      assert v in z.nodes && AgesFit(z.nodes[v].options.maxAgeMs, z.relayMs);
    }
  }

  lemma {:induction false} RunKeepsYoung(run: seq<System>, k: nat, fetchMs: int)
    requires SmoothRun(run, fetchMs) && k < |run| && run[0].config.accessTtl <= ACCESS_TOKEN_TTL_SECONDS
    requires Fits(run[k]) && fetchMs + run[k].relayMs <= WAIT_MS
    ensures SystemYoung(run[k])
  {
    if k > 0 {
      assert CanMove(run[k - 1], run[k]);
      var m :| IsMove(run[k - 1], m, run[k]);
      MoveKeepsFits(run[k - 1], m);
      RunKeepsYoung(run, k - 1, fetchMs);
      RunInv(run, k - 1);
      MoveKeepsYoung(run[k - 1], m, fetchMs);
    }
  }

  // ---- what it promises -----------------------------------------------------------------------

  /** A finished call presented this genuine token, issued by then and acceptable then. */
  predicate Presented(y: System, v: nat, id: nat, i: Signing.Issued) {
    && v in y.nodes && id in y.nodes[v].tasks && y.nodes[v].tasks[id].Done?
    && var task := y.nodes[v].tasks[id];
       Genuine(y, i) && task.token == i.token && i.at <= task.now && AcceptableAt(i.claims, y.config.issuer, task.now)
  }

  /**
   * In a smooth run whose ages and fetches fit the propagation wait, every finished `verify` of a genuine token
   * answers its claims, whatever was rotated meanwhile, if the token was still live when the document consulted
   * was served; and these are the subject, tenant and session the token was asked for.
   */
  lemma EveryVerifyAccepts(y: System, fetchMs: int, v: nat, id: nat, i: Signing.Issued)
    requires SmoothlyReachable(y, fetchMs) && y.config.accessTtl <= ACCESS_TOKEN_TTL_SECONDS
    requires Fits(y) && fetchMs + y.relayMs <= WAIT_MS && Presented(y, v, id, i)
    ensures var task := y.nodes[v].tasks[id];
            && task.consulted.Some?
            && (task.outcome == Success(i.claims) || ExpiredAt(i.claims, task.consulted.value.servedAtMs))
            && i.asked.Issue?
            && i.claims == JwtClaims(y.config.issuer, i.asked.sub, i.asked.sty, i.asked.cid, i.asked.sid,
                                     i.at / 1000, i.at / 1000 + i.asked.ttl)
  {
    var run: seq<System> :| SmoothRun(run, fetchMs) && y == run[|run| - 1];
    var k := |run| - 1;
    ConfigConstant(run, k);
    RunInv(run, k);
    RunKeepsYoung(run, k, fetchMs);
    var n := y.nodes[v];
    var task := n.tasks[id];
    assert NodeYoung(n) && TaskYoung(n, task);
    assert Signing.AnswersAsked(y.config, i);
    assert NodeFromSigner(y, n) && TaskFromSigner(y, n.options, task);
    if !ExpiredAt(i.claims, task.consulted.value.servedAtMs) {
      GenuineVerdict(y, n.options, task.consulted.value, i, task.now);
    }
  }

  /** Every finished `verify` of a genuine token that is live to this moment accepted it. */
  predicate AlwaysAccepts(y: System) {
    forall v, i | v in y.nodes && i in y.signer.issued ::
      forall id | id in y.nodes[v].tasks && Presented(y, v, id, i) && !ExpiredAt(i.claims, y.signer.now) ::
        y.nodes[v].tasks[id].outcome == Success(i.claims)
  }

  lemma FittingAccepts(y: System, fetchMs: int)
    requires SmoothlyReachable(y, fetchMs) && y.config.accessTtl <= ACCESS_TOKEN_TTL_SECONDS
    requires Fits(y) && fetchMs + y.relayMs <= WAIT_MS
    ensures AlwaysAccepts(y)
  {
    var run: seq<System> :| SmoothRun(run, fetchMs) && y == run[|run| - 1];
    ConfigConstant(run, |run| - 1);
    RunInv(run, |run| - 1);
    forall v, i, id | v in y.nodes && i in y.signer.issued && id in y.nodes[v].tasks
                      && Presented(y, v, id, i) && !ExpiredAt(i.claims, y.signer.now)
      ensures y.nodes[v].tasks[id].outcome == Success(i.claims)
    {
      EveryVerifyAccepts(y, fetchMs, v, id, i);
      var n := y.nodes[v];
      assert NodeFromSigner(y, n) && TaskFromSigner(y, n.options, n.tasks[id]);
      var q := Signing.Snapshot(n.tasks[id].consulted.value.servedAtMs, n.tasks[id].consulted.value.keys);
      assert q in y.signer.served && q.at <= y.signer.now;
    }
  }

  /** With no time at all for a fetch no run is smooth past its first call, and nothing finishes. */
  predicate Untouched(y: System) {
    forall v | v in y.nodes :: UntouchedNode(y.nodes[v])
  }

  predicate UntouchedNode(n: Node) {
    n.state == INITIAL && n.stamps == [] && forall id | id in n.tasks :: n.tasks[id].Unparsed?
  }

  lemma MoveKeepsUntouched(y: System, m: Move, fetchMs: int)
    requires Untouched(y) && Allowed(y, m) && Smooth(Next(y, m), fetchMs) && fetchMs <= 0
    ensures Untouched(Next(y, m))
  {
    if m.AtVerifier? {
      assert UntouchedNode(y.nodes[m.node]);
      assert NodeSmooth(y.signer.now, Next(y, m).nodes[m.node], fetchMs);
    }
  }

  lemma {:induction false} NothingFinishes(run: seq<System>, k: nat, fetchMs: int)
    requires SmoothRun(run, fetchMs) && k < |run| && fetchMs <= 0
    ensures Untouched(run[k])
  {
    if k > 0 {
      NothingFinishes(run, k - 1, fetchMs);
      assert CanMove(run[k - 1], run[k]);
      var m :| IsMove(run[k - 1], m, run[k]);
      MoveKeepsUntouched(run[k - 1], m, fetchMs);
    }
  }
}
