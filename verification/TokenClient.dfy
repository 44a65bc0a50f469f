/**
 * The client's token lifecycle (`libs/iam-client/src/auth.ts`) wired to its transport
 * (`libs/iam-client/src/http.ts`). Every `await` ends a step, so any other task may run there.
 */
module TokenClient {
  import opened Common

  datatype StoredTokens = StoredTokens(accessToken: string, refreshToken: Option<string>, expiresAt: Option<int>)

  /** What a login, a refresh or a service exchange returned. */
  datatype TokenResponse = TokenResponse(accessToken: string, refreshToken: Option<string>, expiresIn: Option<int>)

  // ---- the session ----------------------------------------------------------------------------

  /** One `runRefresh`, by the await it is suspended at. `None` results are thrown errors. */
  datatype Flight =
    | Starting
    | ReadBack(current: Option<StoredTokens>)
    | Exchanging(refreshToken: string, request: nat)
    | Adopting(pair: TokenResponse)
    | Forgetting
    | Settled(result: Option<TokenResponse>)
    | Released(result: Option<TokenResponse>)

  /** `presented` is history: every refresh token handed to the exchange, in order. */
  datatype Session = Session(
    store: Option<StoredTokens>, pending: Option<nat>, flights: map<nat, Flight>, presented: seq<string>)

  function Adopted(tokens: TokenResponse, now: int): StoredTokens {
    StoredTokens(tokens.accessToken, tokens.refreshToken,
                 if tokens.expiresIn.Some? then Some(now + tokens.expiresIn.value * 1000) else None)
  }

  predicate ExpiringSoon(tokens: StoredTokens, leewayMs: int, now: int) {
    tokens.expiresAt.Some? && tokens.expiresAt.value - leewayMs <= now
  }

  /** `refresh`: join the pending exchange, or start one under the handle `id`. */
  function Refreshed(s: Session, id: nat): (Session, nat) {
    if s.pending.Some? then (s, s.pending.value)
    else (s.(pending := Some(id), flights := s.flights[id := Starting]), id)
  }

  /** The store read of `runRefresh` completes. */
  function FlightRead(s: Session, f: nat): Session
    requires f in s.flights && s.flights[f].Starting?
  {
    s.(flights := s.flights[f := ReadBack(s.store)])
  }

  /** `runRefresh` resumes from its read: present the token it read, or throw. */
  function FlightPresent(s: Session, f: nat, request: nat): Session
    requires f in s.flights && s.flights[f].ReadBack?
  {
    var current := s.flights[f].current;
    if current.None? || current.value.refreshToken.None? then
      s.(flights := s.flights[f := Settled(None)])
    else
      var token := current.value.refreshToken.value;
      s.(flights := s.flights[f := Exchanging(token, request)], presented := s.presented + [token])
  }

  /** The exchange answered with a pair, or failed. */
  function FlightAnswered(s: Session, f: nat, pair: Option<TokenResponse>): Session
    requires f in s.flights && s.flights[f].Exchanging?
  {
    s.(flights := s.flights[f := if pair.Some? then Adopting(pair.value) else Forgetting])
  }

  /** The write of `adopt` completes, or is refused, which lands in the same `catch`. */
  function FlightAdopted(s: Session, f: nat, written: bool, now: int): Session
    requires f in s.flights && s.flights[f].Adopting?
  {
    var pair := s.flights[f].pair;
    if written then s.(store := Some(Adopted(pair, now)), flights := s.flights[f := Settled(Some(pair))])
    else s.(flights := s.flights[f := Forgetting])
  }

  /** The write of `forget` completes, or is refused and replaces the error. */
  function FlightForgot(s: Session, f: nat, written: bool): Session
    requires f in s.flights && s.flights[f].Forgetting?
  {
    s.(store := if written then None else s.store, flights := s.flights[f := Settled(None)])
  }

  /** The `finally`: `pending` is cleared, and the waiters may resume with the result. */
  function FlightReleased(s: Session, f: nat): Session
    requires f in s.flights && s.flights[f].Settled?
  {
    s.(pending := None, flights := s.flights[f := Released(s.flights[f].result)])
  }

  /** What `accessToken` does with the tokens it read. */
  datatype Access = Use(token: Option<string>) | NeedsRefresh

  function DecideAccess(current: Option<StoredTokens>, leewayMs: int, now: int): Access {
    if current.None? then Use(None)
    else if current.value.refreshToken.Some? && ExpiringSoon(current.value, leewayMs, now) then NeedsRefresh
    else Use(Some(current.value.accessToken))
  }

  /** What `reauthorize` does with the tokens it read. */
  datatype Reauth = Verdict(usable: bool) | MustRefresh

  function DecideReauth(current: Option<StoredTokens>, used: Option<string>): Reauth {
    if current.None? then Verdict(false)
    else if used.Some? && current.value.accessToken != used.value then Verdict(true)
    else if current.value.refreshToken.None? then Verdict(false)
    else MustRefresh
  }

  class TokenSession {
    var store: Option<StoredTokens>
    var pending: Option<nat>
    var flights: map<nat, Flight>
    ghost var presented: seq<string>
    const leewayMs: int

    constructor (refreshLeewaySeconds: Option<int>)
      ensures Now() == Session(None, None, map[], [])
      ensures leewayMs == 1000 * (if refreshLeewaySeconds.Some? then refreshLeewaySeconds.value else 30)
    {
      store, pending, flights, presented := None, None, map[], [];
      leewayMs := (if refreshLeewaySeconds.Some? then refreshLeewaySeconds.value else 30) * 1000;
    }

    ghost function Now(): Session
      reads this
    {
      Session(store, pending, flights, presented)
    }

    method Refresh(id: nat) returns (handle: nat)
      modifies this
      ensures (Now(), handle) == Refreshed(old(Now()), id)
    {
      if pending.Some? {
        return pending.value;
      }
      pending := Some(id);
      flights := flights[id := Starting];
      handle := id;
    }

    method RunRefreshRead(f: nat)
      requires f in flights && flights[f].Starting?
      modifies this
      ensures Now() == FlightRead(old(Now()), f)
    {
      flights := flights[f := ReadBack(store)];
    }

    method RunRefreshPresent(f: nat, request: nat)
      requires f in flights && flights[f].ReadBack?
      modifies this
      ensures Now() == FlightPresent(old(Now()), f, request)
    {
      var current := flights[f].current;
      if current.None? || current.value.refreshToken.None? {
        flights := flights[f := Settled(None)];
        return;
      }
      presented := presented + [current.value.refreshToken.value];
      flights := flights[f := Exchanging(current.value.refreshToken.value, request)];
    }

    method ExchangeAnswered(f: nat, pair: Option<TokenResponse>)
      requires f in flights && flights[f].Exchanging?
      modifies this
      ensures Now() == FlightAnswered(old(Now()), f, pair)
    {
      flights := flights[f := if pair.Some? then Adopting(pair.value) else Forgetting];
    }

    method AdoptWritten(f: nat, written: bool, now: int)
      requires f in flights && flights[f].Adopting?
      modifies this
      ensures Now() == FlightAdopted(old(Now()), f, written, now)
    {
      var pair := flights[f].pair;
      if written {
        Adopt(pair, now);
        flights := flights[f := Settled(Some(pair))];
      } else {
        flights := flights[f := Forgetting];
      }
    }

    method ForgetWritten(f: nat, written: bool)
      requires f in flights && flights[f].Forgetting?
      modifies this
      ensures Now() == FlightForgot(old(Now()), f, written)
    {
      if written {
        Clear();
      }
      flights := flights[f := Settled(None)];
    }

    method Release(f: nat)
      requires f in flights && flights[f].Settled?
      modifies this
      ensures Now() == FlightReleased(old(Now()), f)
    {
      pending := None;
      flights := flights[f := Released(flights[f].result)];
    }

    method Adopt(tokens: TokenResponse, now: int)
      modifies this`store
      ensures store == Some(Adopted(tokens, now))
    {
      var expiresAt := if tokens.expiresIn.Some? then Some(now + tokens.expiresIn.value * 1000) else None;
      store := Some(StoredTokens(tokens.accessToken, tokens.refreshToken, expiresAt));
    }

    method Restore(tokens: Option<StoredTokens>)
      modifies this`store
      ensures store == tokens
    {
      store := tokens;
    }

    method Clear()
      modifies this`store
      ensures store == None
    {
      store := None;
    }
  }

  // ---- one request ----------------------------------------------------------------------------

  /** `pair` is the body, when it parses as a token pair. */
  datatype Answer = Response(status: int, pair: Option<TokenResponse>) | Lost

  predicate Ok(a: Answer) { a.Response? && 200 <= a.status < 300 }

  /** A request by the await it is suspended at; `n` is the attempt being prepared or sent. */
  datatype Phase =
    | Authorizing(n: nat)
    | AccessRead(n: nat, current: Option<StoredTokens>)
    | AccessWait(n: nat, flight: nat)
    | Sending(n: nat, token: Option<string>)
    | Reauthorizing(used: Option<string>, refusal: Answer)
    | ReauthRead(used: Option<string>, current: Option<StoredTokens>, refusal: Answer)
    | ReauthWait(flight: nat, refusal: Answer)
    | Finished(answer: Answer)

  /** The counters and the two flags are history. */
  datatype Request = Request(
    bearer: bool, phase: Phase, attempts: nat, refreshCalls: nat, refused: bool, reauthorized: bool)

  function NewRequest(bearer: bool): Request {
    if bearer then Request(true, Authorizing(1), 0, 0, false, false)
    else Request(false, Sending(1, None), 1, 0, false, false)
  }

  function Send(r: Request, n: nat, token: Option<string>): Request {
    r.(phase := Sending(n, token), attempts := r.attempts + 1)
  }

  /** The attempt's answer: a bearer request's first 401 asks for new authority, anything else stands. */
  function Answered(r: Request, answer: Answer): Request
    requires r.phase.Sending?
  {
    if r.bearer && r.phase.n == 1 && answer.Response? && answer.status == 401 then
      r.(phase := Reauthorizing(r.phase.token, answer), refused := true)
    else r.(phase := Finished(answer))
  }

  // ---- the whole client -----------------------------------------------------------------------

  datatype Client = Client(
    now: int, leewayMs: int, session: Session, requests: map<nat, Request>, nextId: nat)

  datatype Step =
    | ClockReads(now: int)
    | CallRequest(bearer: bool)
    | CallRefresh
    | Login(tokens: TokenResponse)
    | Restore(adopted: Option<StoredTokens>)
    | Clear
    | StoreAnswers(request: nat)
    | Resumes(request: nat)
    | Replies(request: nat, answer: Answer)
    | Reads(flight: nat)
    | Presents(flight: nat)
    | ExchangeEnds(flight: nat)
    | AdoptEnds(flight: nat, written: bool)
    | ForgetEnds(flight: nat, written: bool)
    | Releases(flight: nat)

  predicate HasFlight(c: Client, f: nat) { f in c.session.flights }

  predicate Possible(c: Client, step: Step) {
    match step
    case StoreAnswers(q) => q in c.requests && (c.requests[q].phase.Authorizing? || c.requests[q].phase.Reauthorizing?)
    case Resumes(q) =>
      q in c.requests &&
      (match c.requests[q].phase
       case AccessRead(_, _) => true
       case ReauthRead(_, _, _) => true
       case AccessWait(_, f) => HasFlight(c, f) && c.session.flights[f].Released?
       case ReauthWait(f, _) => HasFlight(c, f) && c.session.flights[f].Released?
       case _ => false)
    case Replies(q, _) => q in c.requests && c.requests[q].phase.Sending?
    case Reads(f) => HasFlight(c, f) && c.session.flights[f].Starting?
    case Presents(f) => HasFlight(c, f) && c.session.flights[f].ReadBack?
    case ExchangeEnds(f) =>
      HasFlight(c, f) && c.session.flights[f].Exchanging?
      && c.session.flights[f].request in c.requests && c.requests[c.session.flights[f].request].phase.Finished?
    case AdoptEnds(f, _) => HasFlight(c, f) && c.session.flights[f].Adopting?
    case ForgetEnds(f, _) => HasFlight(c, f) && c.session.flights[f].Forgetting?
    case Releases(f) => HasFlight(c, f) && c.session.flights[f].Settled?
    case _ => true
  }

  /** A request that needs the exchange joins or starts it, and waits. */
  function JoinRefresh(c: Client, q: nat, r: Request): Client {
    var (s, f) := Refreshed(c.session, c.nextId);
    var phase := match r.phase
      case AccessRead(n, _) => AccessWait(n, f)
      case ReauthRead(_, _, refusal) => ReauthWait(f, refusal)
      case other => other;
    c.(session := s, nextId := c.nextId + 1,
       requests := c.requests[q := r.(phase := phase, refreshCalls := r.refreshCalls + 1)])
  }

  function Resumed(c: Client, q: nat): Client
    requires Possible(c, Resumes(q))
  {
    var r := c.requests[q];
    match r.phase
    case AccessRead(n, current) =>
      (match DecideAccess(current, c.leewayMs, c.now)
       case Use(token) => c.(requests := c.requests[q := Send(r, n, token)])
       case NeedsRefresh => JoinRefresh(c, q, r))
    case AccessWait(n, f) =>
      var result := c.session.flights[f].result;
      c.(requests := c.requests[q := Send(r, n, if result.Some? then Some(result.value.accessToken) else None)])
    case ReauthRead(used, current, refusal) =>
      (match DecideReauth(current, used)
       case Verdict(usable) =>
         c.(requests := c.requests[q := if usable then r.(phase := Authorizing(2), reauthorized := true)
                                        else r.(phase := Finished(refusal))])
       case MustRefresh => JoinRefresh(c, q, r))
    case ReauthWait(f, refusal) =>
      c.(requests := c.requests[q := if c.session.flights[f].result.Some?
                                     then r.(phase := Authorizing(2), reauthorized := true)
                                     else r.(phase := Finished(refusal))])
  }

  function Apply(c: Client, step: Step): Client
    requires Possible(c, step)
  {
    var s := c.session;
    match step
    case ClockReads(now) => c.(now := now)
    case CallRequest(bearer) => c.(requests := c.requests[c.nextId := NewRequest(bearer)], nextId := c.nextId + 1)
    case CallRefresh => c.(session := Refreshed(s, c.nextId).0, nextId := c.nextId + 1)
    case Login(tokens) => c.(session := s.(store := Some(Adopted(tokens, c.now))))
    case Restore(tokens) => c.(session := s.(store := tokens))
    case Clear => c.(session := s.(store := None))
    case StoreAnswers(q) =>
      var r := c.requests[q];
      c.(requests := c.requests[q := r.(phase := match r.phase
                                        case Authorizing(n) => AccessRead(n, s.store)
                                        case Reauthorizing(used, refusal) => ReauthRead(used, s.store, refusal))])
    case Resumes(q) => Resumed(c, q)
    case Replies(q, answer) => c.(requests := c.requests[q := Answered(c.requests[q], answer)])
    case Reads(f) => c.(session := FlightRead(s, f))
    case Presents(f) =>
      var t := FlightPresent(s, f, c.nextId);
      if t.flights[f].Exchanging? then
        c.(session := t, requests := c.requests[c.nextId := NewRequest(false)], nextId := c.nextId + 1)
      else c.(session := t)
    case ExchangeEnds(f) =>
      var answer := c.requests[s.flights[f].request].phase.answer;
      c.(session := FlightAnswered(s, f, if Ok(answer) then answer.pair else None))
    case AdoptEnds(f, written) => c.(session := FlightAdopted(s, f, written, c.now))
    case ForgetEnds(f, written) => c.(session := FlightForgot(s, f, written))
    case Releases(f) => c.(session := FlightReleased(s, f))
  }

  // ---- runs -----------------------------------------------------------------------------------

  /** What the surroundings may do: a store may refuse to be cleared; spent refresh tokens may come back. */
  datatype Surroundings = Surroundings(clearMayFail: bool, spentMayReturn: bool)

  predicate Unspent(c: Client, token: Option<string>) {
    token.Some? ==> token.value !in c.session.presented
  }

  /** The request is the one the pending exchange sent. */
  predicate IsExchange(s: Session, q: nat) {
    && s.pending.Some? && s.pending.value in s.flights
    && s.flights[s.pending.value].Exchanging? && s.flights[s.pending.value].request == q
  }

  predicate Within(e: Surroundings, c: Client, step: Step) {
    && Possible(c, step)
    && (step.ForgetEnds? && !step.written ==> e.clearMayFail)
    && (e.spentMayReturn ||
        match step
        case Login(tokens) => Unspent(c, tokens.refreshToken)
        case Restore(tokens) => tokens.Some? ==> Unspent(c, tokens.value.refreshToken)
        case Replies(q, answer) =>
          IsExchange(c.session, q) && Ok(answer) && answer.pair.Some? ==> Unspent(c, answer.pair.value.refreshToken)
        case _ => true)
  }

  predicate Fresh(c: Client) {
    c.session == Session(None, None, map[], []) && c.requests == map[] && c.nextId == 0
  }

  function Run(e: Surroundings, c: Client, steps: seq<Step>): Option<Client>
    decreases |steps|
  {
    if steps == [] then Some(c)
    else if !Within(e, c, steps[0]) then None
    else Run(e, Apply(c, steps[0]), steps[1..])
  }

  ghost predicate Reachable(e: Surroundings, c: Client) {
    exists c0, steps :: Fresh(c0) && Run(e, c0, steps) == Some(c)
  }

  // ---- invariants -----------------------------------------------------------------------------

  /** The only unreleased exchange is the pending one. */
  predicate SingleFlight(s: Session) {
    && (forall f | f in s.flights && !s.flights[f].Released? :: s.pending == Some(f))
    && (s.pending.Some? ==> s.pending.value in s.flights && !s.flights[s.pending.value].Released?)
  }

  predicate RequestInv(r: Request) {
    if !r.bearer then
      && (r.phase.Finished? || r.phase == Sending(1, None))
      && r.attempts == 1 && r.refreshCalls == 0 && !r.refused && !r.reauthorized
    else
      match r.phase
      case Authorizing(n) => Preparing(r, n, 0)
      case AccessRead(n, _) => Preparing(r, n, 0)
      case AccessWait(n, _) => Preparing(r, n, 1)
      case Sending(n, _) =>
        Preparing(r.(attempts := if r.attempts == 0 then 0 else r.attempts - 1), n, 1) && r.attempts == n
      case Reauthorizing(_, _) => r.attempts == 1 && r.refreshCalls <= 1 && r.refused && !r.reauthorized
      case ReauthRead(_, _, _) => r.attempts == 1 && r.refreshCalls <= 1 && r.refused && !r.reauthorized
      case ReauthWait(_, _) => r.attempts == 1 && r.refreshCalls <= 2 && r.refused && !r.reauthorized
      case Finished(_) =>
        && 1 <= r.attempts <= 2 && r.refreshCalls <= 3
        && (r.attempts == 2 <==> r.reauthorized) && (r.reauthorized ==> r.refused)
  }

  /** The first attempt is prepared from nothing; the second only after a 401 and a successful reauthorize. */
  predicate Preparing(r: Request, n: nat, extra: nat) {
    || (n == 1 && r.attempts == 0 && r.refreshCalls <= extra && !r.refused && !r.reauthorized)
    || (n == 2 && r.attempts == 1 && r.refreshCalls <= 2 + extra && r.refused && r.reauthorized)
  }

  predicate Shape(c: Client) {
    && SingleFlight(c.session)
    && (forall f | f in c.session.flights :: f < c.nextId)
    && (forall q | q in c.requests :: q < c.nextId && RequestInv(c.requests[q]))
    && (forall f | f in c.session.flights && c.session.flights[f].Exchanging? ::
          c.session.flights[f].request in c.requests && !c.requests[c.session.flights[f].request].bearer)
    && (forall q | q in c.requests && Awaited(c.requests[q]).Some? :: Awaited(c.requests[q]).value in c.session.flights)
  }

  /** The exchange a request is waiting for. */
  function Awaited(r: Request): Option<nat> {
    match r.phase
    case AccessWait(_, f) => Some(f)
    case ReauthWait(f, _) => Some(f)
    case _ => None
  }

  /** The request a step belongs to, if it is a request's own step. */
  function Mover(step: Step): Option<nat> {
    match step
    case StoreAnswers(q) => Some(q)
    case Resumes(q) => Some(q)
    case Replies(q, _) => Some(q)
    case _ => None
  }

  lemma MoverKeepsRequestInv(c: Client, step: Step)
    requires Possible(c, step) && Mover(step).Some? && RequestInv(c.requests[Mover(step).value])
    ensures Mover(step).value in Apply(c, step).requests
    ensures RequestInv(Apply(c, step).requests[Mover(step).value])
    ensures Apply(c, step).requests[Mover(step).value].bearer == c.requests[Mover(step).value].bearer
  {
  }

  lemma MoverKeepsOthers(c: Client, step: Step)
    requires Possible(c, step) && Mover(step).Some?
    ensures Apply(c, step).requests.Keys == c.requests.Keys
    ensures forall q | q in c.requests && q != Mover(step).value :: Apply(c, step).requests[q] == c.requests[q]
    ensures Apply(c, step).session == c.session || Apply(c, step).session == Refreshed(c.session, c.nextId).0
    ensures c.nextId <= Apply(c, step).nextId
    ensures Apply(c, step).session != c.session ==> c.nextId < Apply(c, step).nextId
  {
  }

  /** A request that starts waiting waits for an exchange that is there. */
  lemma MoverAwaits(c: Client, step: Step)
    requires SingleFlight(c.session) && Possible(c, step) && Mover(step).Some?
    requires var f := Awaited(c.requests[Mover(step).value]); f.Some? ==> f.value in c.session.flights
    ensures Mover(step).value in Apply(c, step).requests
    ensures var f := Awaited(Apply(c, step).requests[Mover(step).value]);
            f.Some? ==> f.value in Apply(c, step).session.flights
  {
  }

  lemma MoverKeepsAwaited(c: Client, step: Step)
    requires Shape(c) && Possible(c, step) && Mover(step).Some?
    ensures var d := Apply(c, step);
            forall q | q in d.requests && Awaited(d.requests[q]).Some?
              :: Awaited(d.requests[q]).value in d.session.flights
  {
    MoverKeepsOthers(c, step);
    MoverAwaits(c, step);
  }

  lemma MoverKeepsShape(c: Client, step: Step)
    requires Shape(c) && Possible(c, step) && Mover(step).Some?
    ensures Shape(Apply(c, step))
  {
    MoverKeepsRequestInv(c, step);
    MoverKeepsOthers(c, step);
    MoverKeepsAwaited(c, step);
  }

  lemma OutsideKeepsShape(c: Client, step: Step)
    requires Shape(c) && Possible(c, step)
    requires step.ClockReads? || step.CallRequest? || step.CallRefresh? || step.Login? || step.Restore? || step.Clear?
    ensures Shape(Apply(c, step))
  {
  }

  lemma PresentsKeepsShape(c: Client, step: Step)
    requires Shape(c) && Possible(c, step) && step.Presents?
    ensures Shape(Apply(c, step))
  {
  }

  lemma FlightKeepsShape(c: Client, step: Step)
    requires Shape(c) && Possible(c, step)
    requires step.Reads? || step.ExchangeEnds? || step.AdoptEnds? || step.ForgetEnds? || step.Releases?
    ensures Shape(Apply(c, step))
  {
  }

  lemma StepKeepsShape(c: Client, step: Step)
    requires Shape(c) && Possible(c, step)
    ensures Shape(Apply(c, step))
  {
    if Mover(step).Some? {
      MoverKeepsShape(c, step);
    } else if step.Presents? {
      PresentsKeepsShape(c, step);
    } else if step.Reads? || step.ExchangeEnds? || step.AdoptEnds? || step.ForgetEnds? || step.Releases? {
      FlightKeepsShape(c, step);
    } else {
      OutsideKeepsShape(c, step);
    }
  }

  /** Progress towards the end of a request; every step of its own lowers it. */
  function Rank(r: Request): nat {
    match r.phase
    case Authorizing(n) => if n == 1 then 11 else 4
    case AccessRead(n, _) => if n == 1 then 10 else 3
    case AccessWait(n, _) => if n == 1 then 9 else 2
    case Sending(n, _) => if n == 1 then 8 else 1
    case Reauthorizing(_, _) => 7
    case ReauthRead(_, _, _) => 6
    case ReauthWait(_, _) => 5
    case Finished(_) => 0
  }

  /** A request only ever moves forward, so it takes at most eleven steps of its own. */
  lemma RequestsOnlyAdvance(c: Client, step: Step)
    requires Shape(c) && Possible(c, step)
    ensures forall q | q in c.requests ::
              && q in Apply(c, step).requests
              && (Mover(step) == Some(q) ==> Rank(Apply(c, step).requests[q]) < Rank(c.requests[q]))
              && (Mover(step) != Some(q) ==> Apply(c, step).requests[q] == c.requests[q])
    ensures forall bearer :: Rank(NewRequest(bearer)) <= 11
  {
    if Mover(step).Some? {
      MoverKeepsOthers(c, step);
      assert RequestInv(c.requests[Mover(step).value]);
      MoverAdvances(c, step);
    }
  }

  lemma MoverAdvances(c: Client, step: Step)
    requires Possible(c, step) && Mover(step).Some? && RequestInv(c.requests[Mover(step).value])
    ensures Mover(step).value in Apply(c, step).requests
    ensures Rank(Apply(c, step).requests[Mover(step).value]) < Rank(c.requests[Mover(step).value])
  {
  }

  predicate Distinct(s: seq<string>) {
    forall i, j :: 0 <= i < j < |s| ==> s[i] != s[j]
  }

  predicate StoreUnspent(c: Client) {
    c.session.store.Some? ==> Unspent(c, c.session.store.value.refreshToken)
  }

  /** No token is presented twice, and whatever may be presented or stored next is unspent. */
  predicate SpendInv(c: Client)
    requires SingleFlight(c.session)
  {
    && Distinct(c.session.presented)
    && (c.session.pending.None? ==> StoreUnspent(c))
    && (c.session.pending.Some? ==>
          match c.session.flights[c.session.pending.value]
          case Starting => StoreUnspent(c)
          case ReadBack(current) => StoreUnspent(c) && (current.Some? ==> Unspent(c, current.value.refreshToken))
          case Exchanging(_, q) =>
            q in c.requests && c.requests[q].phase.Finished? && Ok(c.requests[q].phase.answer)
            && c.requests[q].phase.answer.pair.Some?
            ==> Unspent(c, c.requests[q].phase.answer.pair.value.refreshToken)
          case Adopting(pair) => Unspent(c, pair.refreshToken)
          case Settled(_) => StoreUnspent(c)
          case _ => true)
  }

  const SOUND: Surroundings := Surroundings(false, false)

  lemma MoverKeepsSpendInv(c: Client, step: Step)
    requires Shape(c) && SpendInv(c) && Within(SOUND, c, step) && Mover(step).Some?
    requires SingleFlight(Apply(c, step).session)
    ensures SpendInv(Apply(c, step))
  {
    MoverKeepsOthers(c, step);
  }

  /** The store and the clock change hands between tasks; the exchange stays where it is. */
  lemma OutsideKeepsSpendInv(c: Client, step: Step)
    requires Shape(c) && SpendInv(c) && Within(SOUND, c, step)
    requires step.ClockReads? || step.CallRequest? || step.CallRefresh? || step.Login? || step.Restore? || step.Clear?
    requires SingleFlight(Apply(c, step).session)
    ensures SpendInv(Apply(c, step))
  {
  }

  lemma FlightKeepsSpendInv(c: Client, step: Step)
    requires Shape(c) && SpendInv(c) && Within(SOUND, c, step)
    requires step.Reads? || step.Presents? || step.ExchangeEnds?
             || step.AdoptEnds? || step.ForgetEnds? || step.Releases?
    requires SingleFlight(Apply(c, step).session)
    ensures SpendInv(Apply(c, step))
  {
  }

  lemma StepKeepsSpendInv(c: Client, step: Step)
    requires Shape(c) && SpendInv(c) && Within(SOUND, c, step)
    ensures Shape(Apply(c, step)) && SpendInv(Apply(c, step))
  {
    StepKeepsShape(c, step);
    if Mover(step).Some? {
      MoverKeepsSpendInv(c, step);
    } else if step.Reads? || step.Presents? || step.ExchangeEnds?
              || step.AdoptEnds? || step.ForgetEnds? || step.Releases? {
      FlightKeepsSpendInv(c, step);
    } else {
      OutsideKeepsSpendInv(c, step);
    }
  }

  lemma {:induction false} RunKeepsShape(e: Surroundings, c: Client, steps: seq<Step>)
    requires Shape(c) && Run(e, c, steps).Some?
    ensures Shape(Run(e, c, steps).value)
    decreases |steps|
  {
    if steps != [] {
      StepKeepsShape(c, steps[0]);
      RunKeepsShape(e, Apply(c, steps[0]), steps[1..]);
    }
  }

  lemma {:induction false} RunKeepsSpendInv(c: Client, steps: seq<Step>)
    requires Shape(c) && SpendInv(c) && Run(SOUND, c, steps).Some?
    ensures Shape(Run(SOUND, c, steps).value) && SpendInv(Run(SOUND, c, steps).value)
    decreases |steps|
  {
    if steps != [] {
      StepKeepsSpendInv(c, steps[0]);
      RunKeepsSpendInv(Apply(c, steps[0]), steps[1..]);
    }
  }

  // ---- main results ---------------------------------------------------------------------------

  /**
   * Over every interleaving, and whatever the store and the server do: at most one exchange is under way;
   * a request makes at most two attempts, the second only after a 401 and a successful reauthorize; it asks
   * for at most three refreshes; and the exchange's own request carries no token and asks for none.
   */
  lemma TransportDiscipline(e: Surroundings, c: Client)
    requires Reachable(e, c)
    ensures forall f, g | f in c.session.flights && g in c.session.flights
                          && !c.session.flights[f].Released? && !c.session.flights[g].Released? :: f == g
    ensures forall q | q in c.requests ::
              var r := c.requests[q];
              r.attempts <= 2 && r.refreshCalls <= 3 && (r.attempts == 2 ==> r.refused && r.reauthorized)
    ensures forall f | f in c.session.flights && c.session.flights[f].Exchanging? ::
              && c.session.flights[f].request in c.requests
              && var r := c.requests[c.session.flights[f].request];
                 r.attempts == 1 && r.refreshCalls == 0 && (r.phase == Sending(1, None) || r.phase.Finished?)
  {
    var c0, steps :| Fresh(c0) && Run(e, c0, steps) == Some(c);
    RunKeepsShape(e, c0, steps);
    forall q | q in c.requests ensures RequestInv(c.requests[q]) {
    }
  }

  lemma PresentedOnce(c: Client)
    requires Reachable(SOUND, c)
    ensures Distinct(c.session.presented)
  {
    var c0, steps :| Fresh(c0) && Run(SOUND, c0, steps) == Some(c);
    RunKeepsSpendInv(c0, steps);
  }

  // ---- what the surroundings owe --------------------------------------------------------------

  lemma {:induction false} RunThenStep(e: Surroundings, c0: Client, steps: seq<Step>, step: Step)
    requires Run(e, c0, steps).Some? && Within(e, Run(e, c0, steps).value, step)
    ensures Run(e, c0, steps + [step]) == Some(Apply(Run(e, c0, steps).value, step))
    decreases |steps|
  {
    if steps == [] {
      assert steps + [step] == [step];
    } else {
      RunThenStep(e, Apply(c0, steps[0]), steps[1..], step);
      assert (steps + [step])[1..] == steps[1..] + [step];
    }
  }

  lemma ReachableNext(e: Surroundings, c: Client, step: Step)
    requires Reachable(e, c) && Within(e, c, step)
    ensures Reachable(e, Apply(c, step))
  {
    var c0, steps :| Fresh(c0) && Run(e, c0, steps) == Some(c);
    RunThenStep(e, c0, steps, step);
  }

  predicate Presenting(c: Client, f: nat) {
    && f in c.session.flights && c.session.flights[f].Exchanging?
    && c.session.flights[f].request in c.requests && c.requests[c.session.flights[f].request] == NewRequest(false)
  }

  /** Idle with a stored refresh token, a refresh presents it. */
  lemma PresentStored(e: Surroundings, c: Client, token: string) returns (d: Client, f: nat)
    requires Reachable(e, c) && c.session.pending.None?
    requires c.session.store.Some? && c.session.store.value.refreshToken == Some(token)
    ensures Reachable(e, d) && Presenting(d, f)
    ensures d.session.presented == c.session.presented + [token] && d.session.store == c.session.store
  {
    f := c.nextId;
    ReachableNext(e, c, CallRefresh);
    d := Apply(c, CallRefresh);
    ReachableNext(e, d, Reads(f));
    d := Apply(d, Reads(f));
    ReachableNext(e, d, Presents(f));
    d := Apply(d, Presents(f));
  }

  /** An exchange whose request is lost ends with the store cleared, if the store lets it. */
  lemma LoseExchange(e: Surroundings, c: Client, f: nat, cleared: bool) returns (d: Client)
    requires Reachable(e, c) && Presenting(c, f) && (cleared || e.clearMayFail)
    ensures Reachable(e, d) && d.session.pending.None? && d.session.presented == c.session.presented
    ensures d.session.store == if cleared then None else c.session.store
    ensures f in d.session.flights && d.session.flights[f] == Released(None)
  {
    var q := c.session.flights[f].request;
    ReachableNext(e, c, Replies(q, Lost));
    d := Apply(c, Replies(q, Lost));
    ReachableNext(e, d, ExchangeEnds(f));
    d := Apply(d, ExchangeEnds(f));
    ReachableNext(e, d, ForgetEnds(f, cleared));
    d := Apply(d, ForgetEnds(f, cleared));
    ReachableNext(e, d, Releases(f));
    d := Apply(d, Releases(f));
  }

  /** If either assumption is dropped, some run presents the same token twice. */
  lemma PresentedTwice(e: Surroundings) returns (c: Client)
    requires e.clearMayFail || e.spentMayReturn
    ensures Reachable(e, c) && !Distinct(c.session.presented)
  {
    var stored := StoredTokens("access", Some("refresh"), None);
    c := Client(0, 0, Session(None, None, map[], []), map[], 0);
    assert Run(e, c, []) == Some(c);
    ReachableNext(e, c, Restore(Some(stored)));
    c := Apply(c, Restore(Some(stored)));
    var f;
    c, f := PresentStored(e, c, "refresh");
    c := LoseExchange(e, c, f, !e.clearMayFail);
    if !e.clearMayFail {
      ReachableNext(e, c, Restore(Some(stored)));
      c := Apply(c, Restore(Some(stored)));
    }
    c, f := PresentStored(e, c, "refresh");
    assert c.session.presented[0] == c.session.presented[1];
  }

  /**
   * No refresh token is ever presented twice, over every interleaving of requests, refreshes, logins and
   * logouts, exactly when the store always lets itself be cleared and only unspent tokens are adopted.
   */
  lemma PresentedOnceIff(e: Surroundings)
    ensures (forall c | Reachable(e, c) :: Distinct(c.session.presented)) <==> !e.clearMayFail && !e.spentMayReturn
  {
    if !e.clearMayFail && !e.spentMayReturn {
      forall c | Reachable(e, c) ensures Distinct(c.session.presented) {
        assert e == SOUND;
        PresentedOnce(c);
      }
    } else {
      var c := PresentedTwice(e);
    }
  }

  // ---- when a request refreshes ---------------------------------------------------------------

  /** The tokens a resuming request read call for an exchange. */
  predicate WantsRefresh(c: Client, phase: Phase) {
    match phase
    case AccessRead(_, current) =>
      && current.Some? && current.value.refreshToken.Some?
      && current.value.expiresAt.Some? && current.value.expiresAt.value <= c.now + c.leewayMs
    case ReauthRead(used, current, _) =>
      current.Some? && current.value.refreshToken.Some? && (used.Some? ==> used.value == current.value.accessToken)
    case _ => false
  }

  /**
   * A request asks for a refresh exactly when the tokens it read say so: renewable and about to expire, or
   * renewable and still the ones refused. It then waits for the one pending exchange; otherwise the session
   * is untouched, and a token replaced since is answered by a second attempt without any exchange.
   */
  lemma RefreshAskedIff(c: Client, q: nat)
    requires Possible(c, Resumes(q))
    ensures var d, r := Apply(c, Resumes(q)), c.requests[q];
            && d.requests[q].refreshCalls == r.refreshCalls + (if WantsRefresh(c, r.phase) then 1 else 0)
            && (d.session != c.session <==> WantsRefresh(c, r.phase) && c.session.pending.None?)
            && (WantsRefresh(c, r.phase) ==>
                  d.session.pending.Some?
                  && (c.session.pending.Some? ==> d.session.pending == c.session.pending)
                  && (d.requests[q].phase.AccessWait? || d.requests[q].phase.ReauthWait?)
                  && Some(d.requests[q].phase.flight) == d.session.pending)
            && (r.phase.ReauthRead? && r.phase.used.Some? && r.phase.current.Some?
                && r.phase.current.value.accessToken != r.phase.used.value
                ==> d.requests[q].phase == Authorizing(2) && d.session == c.session)
  {
    assert c.session.pending.None? ==> Refreshed(c.session, c.nextId).0.pending == Some(c.nextId);
  }

  /** An exchange that answers ends with the new pair stored and nothing pending. */
  lemma CompleteExchange(e: Surroundings, c: Client, f: nat, pair: TokenResponse) returns (d: Client)
    requires Reachable(e, c) && Presenting(c, f) && Unspent(c, pair.refreshToken)
    ensures Reachable(e, d) && d.session.pending.None? && d.session.store == Some(Adopted(pair, c.now))
    ensures d.session.presented == c.session.presented
    ensures f in d.session.flights && d.session.flights[f] == Released(Some(pair))
    ensures forall q | q in c.requests && q != c.session.flights[f].request ::
            q in d.requests && d.requests[q] == c.requests[q]
  {
    var q := c.session.flights[f].request;
    ReachableNext(e, c, Replies(q, Response(200, Some(pair))));
    d := Apply(c, Replies(q, Response(200, Some(pair))));
    ReachableNext(e, d, ExchangeEnds(f));
    d := Apply(d, ExchangeEnds(f));
    ReachableNext(e, d, AdoptEnds(f, true));
    d := Apply(d, AdoptEnds(f, true));
    ReachableNext(e, d, Releases(f));
    d := Apply(d, Releases(f));
  }

  /** A refused request has read the store, and has not resumed, when another task renews the pair. */
  function Renewing(): Client {
    var pair := StoredTokens("first", Some("refresh-1"), None);
    var refused := Request(true, ReauthRead(Some("first"), Some(pair), Response(401, None)), 1, 0, true, false);
    Client(0, 0, Session(Some(pair), None, map[], []), map[0 := refused], 1)
  }

  /** The same request just called. */
  function Called(): Client {
    Client(0, 0, Renewing().session, map[0 := NewRequest(true)], 1)
  }

  lemma CalledReachable()
    ensures Reachable(SOUND, Called())
  {
    var pair := StoredTokens("first", Some("refresh-1"), None);
    var c := Client(0, 0, Session(None, None, map[], []), map[], 0);
    assert Run(SOUND, c, []) == Some(c);
    ReachableNext(SOUND, c, Restore(Some(pair)));
    c := Apply(c, Restore(Some(pair)));
    ReachableNext(SOUND, c, CallRequest(true));
    c := Apply(c, CallRequest(true));
    assert c.requests == Called().requests;
  }

  lemma RenewingReachable()
    ensures Reachable(SOUND, Renewing())
  {
    CalledReachable();
    var c := Called();
    ReachableNext(SOUND, c, StoreAnswers(0));
    c := Apply(c, StoreAnswers(0));
    ReachableNext(SOUND, c, Resumes(0));
    c := Apply(c, Resumes(0));
    ReachableNext(SOUND, c, Replies(0, Response(401, None)));
    c := Apply(c, Replies(0, Response(401, None)));
    ReachableNext(SOUND, c, StoreAnswers(0));
    c := Apply(c, StoreAnswers(0));
    assert c.requests == Renewing().requests;
  }

  /** That renewal, its exchange under way. */
  function Renewal(): Client {
    var c := Renewing();
    c.(session := Session(c.session.store, Some(1), map[1 := Exchanging("refresh-1", 2)], ["refresh-1"]),
       requests := c.requests[2 := NewRequest(false)], nextId := 3)
  }

  lemma RenewalReachable()
    ensures Reachable(SOUND, Renewal())
  {
    RenewingReachable();
    var c := Renewing();
    ReachableNext(SOUND, c, CallRefresh);
    c := Apply(c, CallRefresh);
    ReachableNext(SOUND, c, Reads(1));
    c := Apply(c, Reads(1));
    ReachableNext(SOUND, c, Presents(1));
    c := Apply(c, Presents(1));
    assert c.session.flights == Renewal().session.flights && c.session.presented == Renewal().session.presented;
    assert c == Renewal();
  }

  /**
   * So a burst of 401s may cost a second exchange, even in sound surroundings: a request that read the old
   * pair just before it was replaced still starts one of its own when it resumes.
   */
  lemma LateReaderRefreshesAgain() returns (c: Client)
    ensures Reachable(SOUND, c) && Possible(c, Resumes(0))
    ensures c.session.store.Some? && c.session.pending.None?
    ensures c.requests[0].phase.ReauthRead? && c.requests[0].phase.used.Some?
            && c.requests[0].phase.used.value != c.session.store.value.accessToken
    ensures Apply(c, Resumes(0)).session.pending.Some?
  {
    RenewalReachable();
    c := CompleteExchange(SOUND, Renewal(), 1, TokenResponse("second", Some("refresh-2"), None));
  }
}
