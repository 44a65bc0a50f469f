/** What the transport answers, sends again and sends along, read off the steps of a run alone. */
module TokenTransport {
  import opened Common
  import opened TokenClient

  // ---- replies --------------------------------------------------------------------------------

  predicate IsUnauthorized(answer: Answer) {
    answer.Response? && answer.status == 401
  }

  /** Only a 401 to the first attempt of a bearer request asks for new authority; any other answer is the result. */
  lemma ReplyMeaning(c: Client, q: nat, answer: Answer)
    requires Possible(c, Replies(q, answer))
    ensures var r := c.requests[q];
            Apply(c, Replies(q, answer)).requests[q].phase ==
            if r.bearer && r.phase.n == 1 && IsUnauthorized(answer) then Reauthorizing(r.phase.token, answer)
            else Finished(answer)
  {
  }

  /** A read is of the store as it is when it answers: a request's, and an exchange's. */
  lemma ReadsTheStore(c: Client, q: nat, f: nat)
    ensures Possible(c, StoreAnswers(q)) ==>
              Apply(c, StoreAnswers(q)).requests[q].phase ==
              match c.requests[q].phase
              case Authorizing(n) => AccessRead(n, c.session.store)
              case Reauthorizing(used, refusal) => ReauthRead(used, c.session.store, refusal)
              case other => other
    ensures Possible(c, Reads(f)) ==> Apply(c, Reads(f)).session.flights[f] == ReadBack(c.session.store)
  {
  }

  /** What a resumed request does with what it read or waited for. */
  lemma ResumeMeaning(c: Client, q: nat)
    requires Possible(c, Resumes(q))
    ensures var next := Apply(c, Resumes(q)).requests[q].phase;
            match c.requests[q].phase
            case AccessRead(n, current) =>
              !WantsRefresh(c, c.requests[q].phase) ==>
                next == Sending(n, if current.None? then None else Some(current.value.accessToken))
            case AccessWait(n, f) =>
              var result := c.session.flights[f].result;
              next == Sending(n, if result.None? then None else Some(result.value.accessToken))
            case ReauthRead(used, current, refusal) =>
              !WantsRefresh(c, c.requests[q].phase) ==>
                next == if current.Some? && used.Some? && current.value.accessToken != used.value then Authorizing(2)
                        else Finished(refusal)
            case ReauthWait(f, refusal) =>
              next == if c.session.flights[f].result.Some? then Authorizing(2) else Finished(refusal)
            case _ => true
  {
  }

  lemma {:induction false} FinishedStays(e: Surroundings, c: Client, steps: seq<Step>, q: nat)
    requires Shape(c) && q in c.requests && c.requests[q].phase.Finished? && Run(e, c, steps).Some?
    ensures q in Run(e, c, steps).value.requests && Run(e, c, steps).value.requests[q] == c.requests[q]
    decreases |steps|
  {
    if steps != [] {
      StepKeepsShape(c, steps[0]);
      RequestsOnlyAdvance(c, steps[0]);
      FinishedStays(e, Apply(c, steps[0]), steps[1..], q);
    }
  }

  /** An answer other than a 401 ends the request with that very answer, for good. */
  lemma OtherAnswersStand(e: Surroundings, c: Client, q: nat, answer: Answer, later: seq<Step>)
    requires Reachable(e, c) && Within(e, c, Replies(q, answer)) && !IsUnauthorized(answer)
    requires Run(e, Apply(c, Replies(q, answer)), later).Some?
    ensures var d := Run(e, Apply(c, Replies(q, answer)), later).value;
            q in d.requests && d.requests[q].phase == Finished(answer)
  {
    var c0, steps :| Fresh(c0) && Run(e, c0, steps) == Some(c);
    RunKeepsShape(e, c0, steps);
    ReplyMeaning(c, q, answer);
    StepKeepsShape(c, Replies(q, answer));
    FinishedStays(e, Apply(c, Replies(q, answer)), later, q);
  }

  /** The answers a run gives to one request, in order: one for each attempt that ended. */
  function RepliesTo(steps: seq<Step>, q: nat): seq<Answer> {
    if steps == [] then []
    else (match steps[0]
          case Replies(x, answer) => if x == q then [answer] else []
          case _ => []) + RepliesTo(steps[1..], q)
  }

  /** Answers a request may still get. */
  function Remaining(c: Client, q: nat): nat {
    if q !in c.requests then 2
    else
      match c.requests[q].phase
      case Authorizing(n) => if n == 1 then 2 else 1
      case AccessRead(n, _) => if n == 1 then 2 else 1
      case AccessWait(n, _) => if n == 1 then 2 else 1
      case Sending(n, _) => if n == 1 then 2 else 1
      case Finished(_) => 0
      case _ => 1
  }

  lemma StepLeavesRemaining(c: Client, step: Step, q: nat)
    requires Shape(c) && Possible(c, step)
    ensures Remaining(Apply(c, step), q) <= Remaining(c, q)
    ensures step.Replies? && step.request == q ==> Remaining(Apply(c, step), q) < Remaining(c, q)
    ensures step.Replies? && step.request == q && Remaining(Apply(c, step), q) > 0 ==> IsUnauthorized(step.answer)
  {
    if q in c.requests {
      assert RequestInv(c.requests[q]);
      RequestsOnlyAdvance(c, step);
    } else if Mover(step).Some? {
      MoverKeepsOthers(c, step);
    }
  }

  lemma {:induction false} RepliesFit(e: Surroundings, c: Client, steps: seq<Step>, q: nat)
    requires Shape(c) && Run(e, c, steps).Some?
    ensures |RepliesTo(steps, q)| <= Remaining(c, q)
    ensures forall k :: 0 <= k < |RepliesTo(steps, q)| - 1 ==> IsUnauthorized(RepliesTo(steps, q)[k])
    decreases |steps|
  {
    if steps != [] {
      StepKeepsShape(c, steps[0]);
      StepLeavesRemaining(c, steps[0], q);
      RepliesFit(e, Apply(c, steps[0]), steps[1..], q);
    }
  }

  /**
   * In every run a request is answered at most twice, and a second time only if the first answer was a 401: nothing
   * else is ever sent again.
   */
  lemma SecondAttemptNeeds401(e: Surroundings, c: Client, steps: seq<Step>, q: nat)
    requires Fresh(c) && Run(e, c, steps).Some?
    ensures |RepliesTo(steps, q)| <= 2
    ensures |RepliesTo(steps, q)| == 2 ==> IsUnauthorized(RepliesTo(steps, q)[0])
    ensures q in Run(e, c, steps).value.requests && Run(e, c, steps).value.requests[q].attempts == 2 ==>
              RepliesTo(steps, q) != [] && IsUnauthorized(RepliesTo(steps, q)[0])
  {
    RepliesFit(e, c, steps, q);
    RunKeepsShape(e, c, steps);
    if q in Run(e, c, steps).value.requests {
      RefusalWasReplied(e, c, steps, q);
    }
  }

  lemma {:induction false} RefusalWasReplied(e: Surroundings, c: Client, steps: seq<Step>, q: nat)
    requires Shape(c) && Run(e, c, steps).Some? && q in Run(e, c, steps).value.requests
    ensures var d := Run(e, c, steps).value;
            d.requests[q].attempts == 2 && !(q in c.requests && c.requests[q].refused) ==>
              RepliesTo(steps, q) != [] && IsUnauthorized(RepliesTo(steps, q)[0])
    decreases |steps|
  {
    if steps == [] {
      assert RequestInv(c.requests[q]);
    } else {
      var d := Apply(c, steps[0]);
      StepKeepsShape(c, steps[0]);
      RefusalWasReplied(e, d, steps[1..], q);
      StepRefuses(c, steps[0], q);
      if steps[0].Replies? && steps[0].request == q && d.requests[q].phase.Finished? {
        FinishedStays(e, d, steps[1..], q);
        assert RequestInv(c.requests[q]);
      }
    }
  }

  lemma StepRefuses(c: Client, step: Step, q: nat)
    requires Shape(c) && Possible(c, step)
    ensures q in Apply(c, step).requests && Apply(c, step).requests[q].refused
            && !(q in c.requests && c.requests[q].refused) ==>
              step.Replies? && step.request == q && IsUnauthorized(step.answer)
    ensures step.Replies? && step.request == q && !IsUnauthorized(step.answer) ==>
              Apply(c, step).requests[q].phase.Finished?
              && Apply(c, step).requests[q].attempts == c.requests[q].attempts
    ensures step.Replies? && step.request == q && q in c.requests && c.requests[q].attempts == 2 ==>
              c.requests[q].refused
  {
    if q in c.requests {
      RequestsOnlyAdvance(c, step);
      assert RequestInv(c.requests[q]);
    } else if Mover(step).Some? {
      MoverKeepsOthers(c, step);
    }
  }

  // ---- tokens ---------------------------------------------------------------------------------

  /** The access tokens a step brings in from outside: a login, a restore, or a reply that holds a pair. */
  function AccessOf(step: Step): set<string> {
    match step
    case Login(tokens) => {tokens.accessToken}
    case Restore(adopted) => if adopted.Some? then {adopted.value.accessToken} else {}
    case Replies(_, answer) => if answer.Response? && answer.pair.Some? then {answer.pair.value.accessToken} else {}
    case _ => {}
  }

  function Granted(steps: seq<Step>): set<string> {
    if steps == [] then {} else AccessOf(steps[0]) + Granted(steps[1..])
  }

  predicate PairIn(pair: Option<TokenResponse>, granted: set<string>) {
    pair.Some? ==> pair.value.accessToken in granted
  }

  predicate StoredIn(stored: Option<StoredTokens>, granted: set<string>) {
    stored.Some? ==> stored.value.accessToken in granted
  }

  predicate FlightIn(f: Flight, granted: set<string>) {
    match f
    case ReadBack(current) => StoredIn(current, granted)
    case Adopting(pair) => pair.accessToken in granted
    case Settled(result) => PairIn(result, granted)
    case Released(result) => PairIn(result, granted)
    case _ => true
  }

  predicate RequestIn(r: Request, granted: set<string>) {
    match r.phase
    case AccessRead(_, current) => StoredIn(current, granted)
    case Sending(_, token) => token.Some? ==> token.value in granted
    case ReauthRead(_, current, refusal) =>
      StoredIn(current, granted) && (refusal.Response? ==> PairIn(refusal.pair, granted))
    case Finished(answer) => answer.Response? ==> PairIn(answer.pair, granted)
    case Reauthorizing(_, refusal) => refusal.Response? ==> PairIn(refusal.pair, granted)
    case ReauthWait(_, refusal) => refusal.Response? ==> PairIn(refusal.pair, granted)
    case _ => true
  }

  predicate AllGranted(c: Client, granted: set<string>) {
    && StoredIn(c.session.store, granted)
    && (forall f | f in c.session.flights :: FlightIn(c.session.flights[f], granted))
    && (forall q | q in c.requests :: RequestIn(c.requests[q], granted))
  }

  lemma MoverKeepsGranted(c: Client, step: Step, granted: set<string>)
    requires Shape(c) && AllGranted(c, granted) && Possible(c, step) && Mover(step).Some?
    ensures AllGranted(Apply(c, step), granted + AccessOf(step))
  {
    var d, more := Apply(c, step), granted + AccessOf(step);
    MoverKeepsOthers(c, step);
    var x := Mover(step).value;
    assert RequestIn(c.requests[x], granted);
    MoverSendsGranted(c, step, granted);
    forall f | f in d.session.flights ensures FlightIn(d.session.flights[f], more) {
      if f in c.session.flights {
        assert FlightIn(c.session.flights[f], granted);
      }
    }
    forall q | q in d.requests ensures RequestIn(d.requests[q], more) {
      if q != x {
        assert RequestIn(c.requests[q], granted);
      }
    }
  }

  lemma MoverSendsGranted(c: Client, step: Step, granted: set<string>)
    requires AllGranted(c, granted) && Possible(c, step) && Mover(step).Some?
    ensures Mover(step).value in Apply(c, step).requests
    ensures var r := Apply(c, step).requests[Mover(step).value];
            RequestIn(r, granted + AccessOf(step))
  {
    var r := c.requests[Mover(step).value];
    assert RequestIn(r, granted);
    var f := Awaited(r);
    if f.Some? && f.value in c.session.flights {
      assert FlightIn(c.session.flights[f.value], granted);
    }
  }

  lemma OthersKeepGranted(c: Client, step: Step, granted: set<string>)
    requires Shape(c) && AllGranted(c, granted) && Possible(c, step) && Mover(step).None?
    ensures AllGranted(Apply(c, step), granted + AccessOf(step))
  {
    var d, more := Apply(c, step), granted + AccessOf(step);
    forall f | f in d.session.flights ensures FlightIn(d.session.flights[f], more) {
      if f in c.session.flights {
        assert FlightIn(c.session.flights[f], granted);
        if c.session.flights[f].Exchanging? {
          assert RequestIn(c.requests[c.session.flights[f].request], granted);
        }
      }
    }
    forall q | q in d.requests ensures RequestIn(d.requests[q], more) {
      if q in c.requests {
        assert RequestIn(c.requests[q], granted);
      }
    }
  }

  lemma {:induction false} RunKeepsGranted(e: Surroundings, c: Client, steps: seq<Step>, granted: set<string>)
    requires Shape(c) && AllGranted(c, granted) && Run(e, c, steps).Some?
    ensures AllGranted(Run(e, c, steps).value, granted + Granted(steps))
    decreases |steps|
  {
    if steps == [] {
      assert granted + Granted(steps) == granted;
    } else {
      if Mover(steps[0]).Some? {
        MoverKeepsGranted(c, steps[0], granted);
      } else {
        OthersKeepGranted(c, steps[0], granted);
      }
      StepKeepsShape(c, steps[0]);
      RunKeepsGranted(e, Apply(c, steps[0]), steps[1..], granted + AccessOf(steps[0]));
      assert granted + AccessOf(steps[0]) + Granted(steps[1..]) == granted + Granted(steps);
    }
  }

  lemma {:induction false} GrantedBySomeStep(steps: seq<Step>, token: string)
    requires token in Granted(steps)
    ensures exists k :: 0 <= k < |steps| && token in AccessOf(steps[k])
  {
    if token !in AccessOf(steps[0]) {
      GrantedBySomeStep(steps[1..], token);
      var k :| 0 <= k < |steps| - 1 && token in AccessOf(steps[1..][k]);
      assert token in AccessOf(steps[k + 1]);
    }
  }

  /** In every run a request carries only an access token that a login, a restore or a reply brought in as one. */
  lemma SentTokensWereGranted(e: Surroundings, c: Client, steps: seq<Step>, q: nat)
    requires Fresh(c) && Run(e, c, steps).Some? && q in Run(e, c, steps).value.requests
    requires var phase := Run(e, c, steps).value.requests[q].phase; phase.Sending? && phase.token.Some?
    ensures exists k :: 0 <= k < |steps| && Run(e, c, steps).value.requests[q].phase.token.value in AccessOf(steps[k])
  {
    RunKeepsGranted(e, c, steps, {});
    var d := Run(e, c, steps).value;
    assert RequestIn(d.requests[q], {} + Granted(steps));
    GrantedBySomeStep(steps, d.requests[q].phase.token.value);
  }

  // ---- exchanges ------------------------------------------------------------------------------

  /** An exchange succeeds exactly on a reply in the two-hundreds that holds a pair; all else ends in forgetting. */
  lemma ExchangeSucceedsIff(c: Client, f: nat, pair: TokenResponse)
    requires Possible(c, ExchangeEnds(f))
    ensures var answer := c.requests[c.session.flights[f].request].phase.answer;
            var next := Apply(c, ExchangeEnds(f)).session.flights[f];
            && (next == Adopting(pair) <==>
                answer.Response? && 200 <= answer.status <= 299 && answer.pair == Some(pair))
            && (next.Adopting? || next.Forgetting?)
            && Apply(c, ExchangeEnds(f)).session.store == c.session.store
  {
  }

  /**
   * When an adopted pair is renewed ahead of its end. A pair good for `n` seconds, adopted at `at` ms, is sent as it
   * is until `n` seconds less the leeway have passed, and asks for an exchange from then on; one without a lifetime
   * or a refresh token never does.
   */
  lemma RenewalIsTimely(c: Client, tokens: TokenResponse, at: int, n: nat)
    ensures var stored := Adopted(tokens, at);
            && stored.accessToken == tokens.accessToken && stored.refreshToken == tokens.refreshToken
            && (WantsRefresh(c, AccessRead(n, Some(stored))) <==>
                tokens.refreshToken.Some? && tokens.expiresIn.Some?
                && c.now >= at + 1000 * tokens.expiresIn.value - c.leewayMs)
  {
  }
}
