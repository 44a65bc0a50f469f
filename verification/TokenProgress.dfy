/** Every request of the client ends, and what a logout or a login is worth while an exchange is under way. */
module TokenProgress {
  import opened Common
  import opened TokenClient

  // ---- progress -------------------------------------------------------------------------------

  /** The exchange a step belongs to, if it is an exchange's own step. */
  function FlightOf(step: Step): Option<nat> {
    match step
    case Reads(f) => Some(f)
    case Presents(f) => Some(f)
    case ExchangeEnds(f) => Some(f)
    case AdoptEnds(f, _) => Some(f)
    case ForgetEnds(f, _) => Some(f)
    case Releases(f) => Some(f)
    case _ => None
  }

  /** The step is taken by the exchange, or by the request it sent. */
  predicate MovesFlight(c: Client, step: Step, f: nat)
    requires f in c.session.flights
  {
    || FlightOf(step) == Some(f)
    || (c.session.flights[f].Exchanging? && Mover(step) == Some(c.session.flights[f].request))
  }

  /** The step brings the request nearer to its end: its own, or one of the exchange it waits for. */
  predicate Advances(c: Client, step: Step, q: nat)
    requires q in c.requests
  {
    || Mover(step) == Some(q)
    || (var f := Awaited(c.requests[q]); f.Some? && f.value in c.session.flights && MovesFlight(c, step, f.value))
  }

  /** Steps an exchange is from its release, its own request's reply included. */
  function FlightDistance(c: Client, f: nat): nat
    requires f in c.session.flights
  {
    match c.session.flights[f]
    case Starting => 7
    case ReadBack(_) => 6
    case Exchanging(_, x) => if x in c.requests && c.requests[x].phase.Finished? then 4 else 5
    case Adopting(_) => 3
    case Forgetting => 2
    case Settled(_) => 1
    case Released(_) => 0
  }

  /** One measure over a request, the exchange it waits for, and that exchange's own request. */
  function Distance(c: Client, q: nat): nat
    requires q in c.requests
  {
    var f := Awaited(c.requests[q]);
    8 * Rank(c.requests[q]) + if f.Some? && f.value in c.session.flights then FlightDistance(c, f.value) else 0
  }

  lemma MoverShortens(c: Client, step: Step, q: nat)
    requires Shape(c) && Possible(c, step) && Mover(step) == Some(q)
    ensures q in Apply(c, step).requests && Distance(Apply(c, step), q) < Distance(c, q)
  {
    RequestsOnlyAdvance(c, step);
  }

  lemma FlightShortens(c: Client, step: Step, f: nat)
    requires Shape(c) && Possible(c, step) && f in c.session.flights && MovesFlight(c, step, f)
    ensures f in Apply(c, step).session.flights && FlightDistance(Apply(c, step), f) < FlightDistance(c, f)
  {
    if Mover(step).Some? {
      MoverKeepsOthers(c, step);
      var x := c.session.flights[f].request;
      assert RequestInv(c.requests[x]);
    }
  }

  lemma FlightStays(c: Client, step: Step, f: nat)
    requires Shape(c) && Possible(c, step) && f in c.session.flights && !MovesFlight(c, step, f)
    ensures f in Apply(c, step).session.flights && FlightDistance(Apply(c, step), f) == FlightDistance(c, f)
  {
    if Mover(step).Some? {
      MoverKeepsOthers(c, step);
    }
    if c.session.flights[f].Exchanging? {
      RequestsOnlyAdvance(c, step);
    }
  }

  /** Every step that advances a request brings it nearer, and no other step takes it further away. */
  lemma StepsShorten(c: Client, step: Step, q: nat)
    requires Shape(c) && Possible(c, step) && q in c.requests
    ensures q in Apply(c, step).requests
    ensures Advances(c, step, q) ==> Distance(Apply(c, step), q) < Distance(c, q)
    ensures !Advances(c, step, q) ==> Distance(Apply(c, step), q) == Distance(c, q)
  {
    RequestsOnlyAdvance(c, step);
    if Mover(step) == Some(q) {
      MoverShortens(c, step, q);
    } else {
      var f := Awaited(c.requests[q]);
      if f.Some? {
        if MovesFlight(c, step, f.value) {
          FlightShortens(c, step, f.value);
        } else {
          FlightStays(c, step, f.value);
        }
      }
    }
  }

  /** A step of an exchange that is not released is possible, whatever the surroundings. */
  lemma FlightCanMove(e: Surroundings, c: Client, f: nat) returns (step: Step)
    requires Shape(c) && f in c.session.flights && !c.session.flights[f].Released?
    ensures Within(e, c, step) && MovesFlight(c, step, f)
  {
    match c.session.flights[f]
    case Starting => step := Reads(f);
    case ReadBack(_) => step := Presents(f);
    case Exchanging(_, x) =>
      assert RequestInv(c.requests[x]);
      step := if c.requests[x].phase.Finished? then ExchangeEnds(f) else Replies(x, Lost);
    case Adopting(_) => step := AdoptEnds(f, true);
    case Forgetting => step := ForgetEnds(f, true);
    case Settled(_) => step := Releases(f);
  }

  /** No request is ever stuck: it can step itself, or the exchange it waits for can, or that one's own request. */
  lemma SomeStepAdvances(e: Surroundings, c: Client, q: nat) returns (step: Step)
    requires Shape(c) && q in c.requests && !c.requests[q].phase.Finished?
    ensures Within(e, c, step) && Advances(c, step, q)
  {
    match c.requests[q].phase
    case Authorizing(_) => step := StoreAnswers(q);
    case Reauthorizing(_, _) => step := StoreAnswers(q);
    case AccessRead(_, _) => step := Resumes(q);
    case ReauthRead(_, _, _) => step := Resumes(q);
    case Sending(_, _) => step := Replies(q, Lost);
    case AccessWait(_, f) =>
      if c.session.flights[f].Released? { step := Resumes(q); } else { step := FlightCanMove(e, c, f); }
    case ReauthWait(f, _) =>
      if c.session.flights[f].Released? { step := Resumes(q); } else { step := FlightCanMove(e, c, f); }
  }

  lemma ReachableShape(e: Surroundings, c: Client)
    requires Reachable(e, c)
    ensures Shape(c)
  {
    var c0, steps :| Fresh(c0) && Run(e, c0, steps) == Some(c);
    RunKeepsShape(e, c0, steps);
  }

  lemma DistanceBounded(c: Client, q: nat)
    requires q in c.requests
    ensures Distance(c, q) <= 95
  {
    assert Rank(c.requests[q]) <= 11;
  }

  /** The steps of a run that advance a request. */
  function Advancing(e: Surroundings, c: Client, steps: seq<Step>, q: nat): nat
    requires q in c.requests && Shape(c) && Run(e, c, steps).Some?
    decreases |steps|
  {
    if steps == [] then 0
    else
      StepsShorten(c, steps[0], q);
      StepKeepsShape(c, steps[0]);
      (if Advances(c, steps[0], q) then 1 else 0) + Advancing(e, Apply(c, steps[0]), steps[1..], q)
  }

  lemma {:induction false} AdvancingBounded(e: Surroundings, c: Client, steps: seq<Step>, q: nat)
    requires q in c.requests && Shape(c) && Run(e, c, steps).Some?
    ensures q in Run(e, c, steps).value.requests
    ensures Advancing(e, c, steps, q) + Distance(Run(e, c, steps).value, q) <= Distance(c, q)
    decreases |steps|
  {
    if steps != [] {
      StepsShorten(c, steps[0], q);
      StepKeepsShape(c, steps[0]);
      AdvancingBounded(e, Apply(c, steps[0]), steps[1..], q);
    }
  }

  /** Advancing an unfinished request for as long as it takes. */
  lemma {:induction false} CanFinish(e: Surroundings, c: Client, q: nat) returns (steps: seq<Step>)
    requires Shape(c) && q in c.requests
    ensures Run(e, c, steps).Some? && q in Run(e, c, steps).value.requests
    ensures Run(e, c, steps).value.requests[q].phase.Finished? && |steps| <= Distance(c, q)
    decreases Distance(c, q)
  {
    if c.requests[q].phase.Finished? {
      steps := [];
    } else {
      var step := SomeStepAdvances(e, c, q);
      StepsShorten(c, step, q);
      StepKeepsShape(c, step);
      var rest := CanFinish(e, Apply(c, step), q);
      steps := [step] + rest;
      assert steps[1..] == rest;
    }
  }

  /**
   * Every request ends, in every surroundings. From any reachable client an unfinished request has a step that
   * advances it: its own, the awaited exchange's, or that of the exchange's own request, which waits for nobody.
   * However tasks interleave, no run holds more than 95 such steps, and some run of no more finishes it.
   */
  lemma EveryRequestEnds(e: Surroundings, c: Client, q: nat)
    requires Reachable(e, c) && q in c.requests
    ensures Shape(c) && Distance(c, q) <= 95
    ensures !c.requests[q].phase.Finished? ==> exists step :: Within(e, c, step) && Advances(c, step, q)
    ensures forall steps :: Run(e, c, steps).Some? ==> Advancing(e, c, steps, q) <= 95
    ensures exists steps :: Run(e, c, steps).Some? && |steps| <= 95 && q in Run(e, c, steps).value.requests
                            && Run(e, c, steps).value.requests[q].phase.Finished?
  {
    ReachableShape(e, c);
    DistanceBounded(c, q);
    if !c.requests[q].phase.Finished? {
      var step := SomeStepAdvances(e, c, q);
      assert Within(e, c, step) && Advances(c, step, q);
    }
    forall steps | Run(e, c, steps).Some? ensures Advancing(e, c, steps, q) <= 95 {
      AdvancingBounded(e, c, steps, q);
    }
    var steps := CanFinish(e, c, q);
  }

  // ---- when a logout sticks -------------------------------------------------------------------

  predicate Quiet(step: Step) {
    !step.Login? && !step.Restore?
  }

  predicate AllQuiet(steps: seq<Step>) {
    forall k :: 0 <= k < |steps| ==> Quiet(steps[k])
  }

  /** An exchange has read a refresh token, and has not failed yet. */
  predicate ExchangeMayLand(c: Client) {
    && c.session.pending.Some? && c.session.pending.value in c.session.flights
    && match c.session.flights[c.session.pending.value]
       case ReadBack(current) => current.Some? && current.value.refreshToken.Some?
       case Exchanging(_, x) =>
         x in c.requests && (c.requests[x].phase.Finished? ==>
                               Ok(c.requests[x].phase.answer) && c.requests[x].phase.answer.pair.Some?)
       case Adopting(_) => true
       case _ => false
  }

  predicate LoggedOut(c: Client) {
    c.session.store == None && !ExchangeMayLand(c)
  }

  lemma StepKeepsLoggedOut(c: Client, step: Step)
    requires Shape(c) && LoggedOut(c) && Possible(c, step) && Quiet(step)
    ensures LoggedOut(Apply(c, step))
  {
    if Mover(step).Some? {
      MoverKeepsOthers(c, step);
    }
    RequestsOnlyAdvance(c, step);
  }

  lemma {:induction false} RunKeepsLoggedOut(e: Surroundings, c: Client, steps: seq<Step>)
    requires Shape(c) && LoggedOut(c) && AllQuiet(steps) && Run(e, c, steps).Some?
    ensures LoggedOut(Run(e, c, steps).value)
    decreases |steps|
  {
    if steps != [] {
      StepKeepsShape(c, steps[0]);
      StepKeepsLoggedOut(c, steps[0]);
      RunKeepsLoggedOut(e, Apply(c, steps[0]), steps[1..]);
    }
  }

  /** Tokens come back into the store without anybody logging in. */
  ghost predicate ComesBack(e: Surroundings, c: Client) {
    exists steps :: AllQuiet(steps) && Run(e, c, steps).Some? && Run(e, c, steps).value.session.store.Some?
  }

  lemma ComesBackAfter(e: Surroundings, c: Client, step: Step)
    requires Within(e, c, step) && Quiet(step) && ComesBack(e, Apply(c, step))
    ensures ComesBack(e, c)
  {
    var rest :| AllQuiet(rest) && Run(e, Apply(c, step), rest).Some?
                 && Run(e, Apply(c, step), rest).value.session.store.Some?;
    var steps := [step] + rest;
    assert steps[1..] == rest;
    assert AllQuiet(steps);
  }

  lemma AdoptingComesBack(e: Surroundings, c: Client, f: nat)
    requires f in c.session.flights && c.session.flights[f].Adopting?
    ensures ComesBack(e, c)
  {
    var d := Apply(c, AdoptEnds(f, true));
    assert Run(e, d, []) == Some(d) && AllQuiet([]);
    assert ComesBack(e, d);
    ComesBackAfter(e, c, AdoptEnds(f, true));
  }

  lemma AnsweredComesBack(e: Surroundings, c: Client, f: nat)
    requires f in c.session.flights && c.session.flights[f].Exchanging?
    requires var x := c.session.flights[f].request;
             x in c.requests && c.requests[x].phase.Finished?
             && Ok(c.requests[x].phase.answer) && c.requests[x].phase.answer.pair.Some?
    ensures ComesBack(e, c)
  {
    AdoptingComesBack(e, Apply(c, ExchangeEnds(f)), f);
    ComesBackAfter(e, c, ExchangeEnds(f));
  }

  lemma SentComesBack(e: Surroundings, c: Client, f: nat)
    requires Shape(c) && f in c.session.flights && c.session.flights[f].Exchanging?
    requires !c.requests[c.session.flights[f].request].phase.Finished?
    ensures ComesBack(e, c)
  {
    var x := c.session.flights[f].request;
    var step := Replies(x, Response(200, Some(TokenResponse("access", None, None))));
    assert RequestInv(c.requests[x]);
    AnsweredComesBack(e, Apply(c, step), f);
    ComesBackAfter(e, c, step);
  }

  lemma ReadComesBack(e: Surroundings, c: Client, f: nat)
    requires Shape(c) && f in c.session.flights && c.session.flights[f].ReadBack?
    requires c.session.flights[f].current.Some? && c.session.flights[f].current.value.refreshToken.Some?
    ensures ComesBack(e, c)
  {
    StepKeepsShape(c, Presents(f));
    SentComesBack(e, Apply(c, Presents(f)), f);
    ComesBackAfter(e, c, Presents(f));
  }

  /**
   * A logout sticks, in every continuation without a login or a restore, exactly when at that moment no exchange
   * has read a token and may still succeed: `clear` empties the store and leaves the exchange under way.
   */
  lemma LogoutSticksIff(e: Surroundings, c: Client)
    requires Reachable(e, c)
    ensures !ComesBack(e, Apply(c, Clear)) <==> !ExchangeMayLand(c)
  {
    ReachableShape(e, c);
    var d := Apply(c, Clear);
    StepKeepsShape(c, Clear);
    assert ExchangeMayLand(d) <==> ExchangeMayLand(c);
    if ExchangeMayLand(d) {
      var f := d.session.pending.value;
      match d.session.flights[f]
      case ReadBack(_) => ReadComesBack(e, d, f);
      case Exchanging(_, x) =>
        if d.requests[x].phase.Finished? { AnsweredComesBack(e, d, f); } else { SentComesBack(e, d, f); }
      case Adopting(_) => AdoptingComesBack(e, d, f);
    } else {
      forall steps | AllQuiet(steps) && Run(e, d, steps).Some? ensures Run(e, d, steps).value.session.store == None {
        RunKeepsLoggedOut(e, d, steps);
      }
    }
  }

  // ---- when a login sticks --------------------------------------------------------------------

  /** Nobody logs in, restores or logs out. */
  predicate Undisturbed(step: Step) {
    Quiet(step) && !step.Clear?
  }

  predicate AllUndisturbed(steps: seq<Step>) {
    forall k :: 0 <= k < |steps| ==> Undisturbed(steps[k])
  }

  /** An exchange that read another pair, or is past its read, may still write the store or clear it. */
  predicate MayStillWrite(c: Client, token: Option<string>) {
    && c.session.pending.Some? && c.session.pending.value in c.session.flights
    && match c.session.flights[c.session.pending.value]
       case ReadBack(current) =>
         current.Some? && current.value.refreshToken.Some? && current.value.refreshToken != token
       case Exchanging(_, _) => true
       case Adopting(_) => true
       case Forgetting => true
       case _ => false
  }

  /** The store no longer holds this pair, and the pair's own refresh token was never presented. */
  predicate Gone(c: Client, stored: StoredTokens) {
    c.session.store != Some(stored) && Unspent(c, stored.refreshToken)
  }

  /** In some undisturbed run the pair is lost without having been used to renew itself. */
  ghost predicate MayBeLost(e: Surroundings, c: Client, stored: StoredTokens) {
    exists steps :: AllUndisturbed(steps) && Run(e, c, steps).Some? && Gone(Run(e, c, steps).value, stored)
  }

  /** The pair was used to renew itself, or it is still there and nothing else may touch it. */
  predicate Held(c: Client, stored: StoredTokens) {
    || !Unspent(c, stored.refreshToken)
    || (c.session.store == Some(stored) && !MayStillWrite(c, stored.refreshToken))
  }

  lemma StepKeepsHeld(c: Client, step: Step, stored: StoredTokens)
    requires Shape(c) && Held(c, stored) && Possible(c, step) && Undisturbed(step)
    ensures Held(Apply(c, step), stored)
  {
    if Mover(step).Some? {
      MoverKeepsOthers(c, step);
    }
  }

  lemma {:induction false} RunKeepsHeld(e: Surroundings, c: Client, steps: seq<Step>, stored: StoredTokens)
    requires Shape(c) && Held(c, stored) && AllUndisturbed(steps) && Run(e, c, steps).Some?
    ensures Held(Run(e, c, steps).value, stored)
    decreases |steps|
  {
    if steps != [] {
      StepKeepsShape(c, steps[0]);
      StepKeepsHeld(c, steps[0], stored);
      RunKeepsHeld(e, Apply(c, steps[0]), steps[1..], stored);
    }
  }

  lemma LostNow(e: Surroundings, c: Client, stored: StoredTokens)
    requires Gone(c, stored)
    ensures MayBeLost(e, c, stored)
  {
    assert Run(e, c, []) == Some(c) && AllUndisturbed([]);
  }

  lemma LostAfter(e: Surroundings, c: Client, step: Step, stored: StoredTokens)
    requires Within(e, c, step) && Undisturbed(step) && MayBeLost(e, Apply(c, step), stored)
    ensures MayBeLost(e, c, stored)
  {
    var d := Apply(c, step);
    var rest :| AllUndisturbed(rest) && Run(e, d, rest).Some? && Gone(Run(e, d, rest).value, stored);
    var steps := [step] + rest;
    assert steps[1..] == rest;
    assert AllUndisturbed(steps);
  }

  lemma ForgettingLoses(e: Surroundings, c: Client, f: nat, stored: StoredTokens)
    requires f in c.session.flights && c.session.flights[f].Forgetting? && Unspent(c, stored.refreshToken)
    ensures MayBeLost(e, c, stored)
  {
    LostNow(e, Apply(c, ForgetEnds(f, true)), stored);
    LostAfter(e, c, ForgetEnds(f, true), stored);
  }

  lemma AdoptingLoses(e: Surroundings, c: Client, f: nat, stored: StoredTokens)
    requires f in c.session.flights && c.session.flights[f].Adopting? && Unspent(c, stored.refreshToken)
    ensures MayBeLost(e, c, stored)
  {
    ForgettingLoses(e, Apply(c, AdoptEnds(f, false)), f, stored);
    LostAfter(e, c, AdoptEnds(f, false), stored);
  }

  lemma AnsweredLoses(e: Surroundings, c: Client, f: nat, stored: StoredTokens)
    requires f in c.session.flights && c.session.flights[f].Exchanging? && Unspent(c, stored.refreshToken)
    requires c.session.flights[f].request in c.requests && c.requests[c.session.flights[f].request].phase.Finished?
    ensures MayBeLost(e, c, stored)
  {
    var d := Apply(c, ExchangeEnds(f));
    if d.session.flights[f].Adopting? {
      AdoptingLoses(e, d, f, stored);
    } else {
      ForgettingLoses(e, d, f, stored);
    }
    LostAfter(e, c, ExchangeEnds(f), stored);
  }

  lemma SentLoses(e: Surroundings, c: Client, f: nat, stored: StoredTokens)
    requires Shape(c) && f in c.session.flights && c.session.flights[f].Exchanging? && Unspent(c, stored.refreshToken)
    ensures MayBeLost(e, c, stored)
  {
    var x := c.session.flights[f].request;
    if c.requests[x].phase.Finished? {
      AnsweredLoses(e, c, f, stored);
    } else {
      assert RequestInv(c.requests[x]);
      AnsweredLoses(e, Apply(c, Replies(x, Lost)), f, stored);
      LostAfter(e, c, Replies(x, Lost), stored);
    }
  }

  lemma ReadLoses(e: Surroundings, c: Client, f: nat, stored: StoredTokens)
    requires Shape(c) && f in c.session.flights && c.session.flights[f].ReadBack? && Unspent(c, stored.refreshToken)
    requires var current := c.session.flights[f].current;
             current.Some? && current.value.refreshToken.Some? && current.value.refreshToken != stored.refreshToken
    ensures MayBeLost(e, c, stored)
  {
    StepKeepsShape(c, Presents(f));
    SentLoses(e, Apply(c, Presents(f)), f, stored);
    LostAfter(e, c, Presents(f), stored);
  }

  lemma MayWriteLoses(e: Surroundings, c: Client, stored: StoredTokens)
    requires Shape(c) && MayStillWrite(c, stored.refreshToken) && Unspent(c, stored.refreshToken)
    ensures MayBeLost(e, c, stored)
  {
    var f := c.session.pending.value;
    match c.session.flights[f]
    case ReadBack(_) => ReadLoses(e, c, f, stored);
    case Exchanging(_, _) => SentLoses(e, c, f, stored);
    case Adopting(_) => AdoptingLoses(e, c, f, stored);
    case Forgetting => ForgettingLoses(e, c, f, stored);
  }

  /**
   * A login sticks, until it is used to renew itself, in every continuation without a login, a restore or a logout,
   * exactly when at that moment no exchange read another pair's token and is still to settle.
   */
  lemma LoginSticksIff(e: Surroundings, c: Client, tokens: TokenResponse)
    requires Reachable(e, c) && Unspent(c, tokens.refreshToken)
    ensures !MayBeLost(e, Apply(c, Login(tokens)), Adopted(tokens, c.now)) <==> !MayStillWrite(c, tokens.refreshToken)
  {
    ReachableShape(e, c);
    var d, stored := Apply(c, Login(tokens)), Adopted(tokens, c.now);
    StepKeepsShape(c, Login(tokens));
    assert MayStillWrite(d, stored.refreshToken) <==> MayStillWrite(c, tokens.refreshToken);
    if MayStillWrite(d, stored.refreshToken) {
      MayWriteLoses(e, d, stored);
    } else {
      forall steps | AllUndisturbed(steps) && Run(e, d, steps).Some? ensures !Gone(Run(e, d, steps).value, stored) {
        RunKeepsHeld(e, d, steps, stored);
      }
    }
  }

  /** An exchange begun before a login that succeeds after it puts the older identity's pair in its place. */
  lemma SuccessOverwritesLogin(e: Surroundings, c: Client, f: nat, tokens: TokenResponse, pair: TokenResponse)
      returns (d: Client)
    requires Reachable(e, c) && Presenting(c, f) && Unspent(c, tokens.refreshToken) && Unspent(c, pair.refreshToken)
    ensures Reachable(e, Apply(c, Login(tokens))) && Reachable(e, d)
    ensures d.session.store == Some(Adopted(pair, c.now)) && d.session.presented == c.session.presented
  {
    ReachableNext(e, c, Login(tokens));
    d := CompleteExchange(e, Apply(c, Login(tokens)), f, pair);
  }

  /** And one that fails after it clears the login's pair, which was never presented. */
  lemma FailureClearsLogin(e: Surroundings, c: Client, f: nat, tokens: TokenResponse) returns (d: Client)
    requires Reachable(e, c) && Presenting(c, f) && Unspent(c, tokens.refreshToken)
    ensures Reachable(e, Apply(c, Login(tokens))) && Reachable(e, d)
    ensures d.session.store == None && d.session.presented == c.session.presented
  {
    ReachableNext(e, c, Login(tokens));
    d := LoseExchange(e, Apply(c, Login(tokens)), f, true);
  }
}
