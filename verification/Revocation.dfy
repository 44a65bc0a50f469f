/** The expiring-key store, the revocation cache over it, and the guard that asks it. */
module Revocation {
  import opened Common
  import opened Contracts
  import opened Claims
  import opened Text

  /** The two commands of the shared store. `entries` maps a key to the millisecond it disappears. */
  class ExpiringStore {
    var entries: map<string, int>

    constructor ()
      ensures entries == map[]
    {
      entries := map[];
    }

    /** `SET key value EX ttl`: replaces the entry and its clock. */
    method SetEx(key: string, ttlSeconds: int, now: int)
      modifies this
      ensures entries == old(entries)[key := now + ttlSeconds * 1000]
    {
      entries := entries[key := now + ttlSeconds * 1000];
    }

    /** `EXISTS key`: the number of live keys. */
    method Exists(key: string, now: int) returns (count: nat)
      ensures count == if Live(entries, key, now) then 1 else 0
    {
      count := if key in entries && now < entries[key] then 1 else 0;
    }
  }

  predicate Live(entries: map<string, int>, key: string, now: int) {
    key in entries && now < entries[key]
  }

  const REVOKED_SESSION_PREFIX := "revoked-sid:"

  function RevokedSessionKey(sid: string): string {
    REVOKED_SESSION_PREFIX + sid
  }

  lemma KeysDiffer(a: string, b: string)
    requires a != b
    ensures RevokedSessionKey(a) != RevokedSessionKey(b)
    ensures RevokedSessionKey(a) == "revoked-sid:" + a
  {
    assert RevokedSessionKey(a)[|REVOKED_SESSION_PREFIX|..] == a;
    assert RevokedSessionKey(b)[|REVOKED_SESSION_PREFIX|..] == b;
  }

  /** The entry lives one access-token lifetime plus the leeway. */
  function EntryTtl(accessTtl: int): int {
    accessTtl + CLOCK_SKEW_LEEWAY_SECONDS
  }

  class RevocationCache {
    const store: ExpiringStore
    const ttlSeconds: int

    constructor (store: ExpiringStore, accessTtl: int)
      ensures this.store == store && ttlSeconds == EntryTtl(accessTtl)
    {
      this.store := store;
      ttlSeconds := EntryTtl(accessTtl);
    }

    method Revoke(sid: string, now: int)
      modifies store
      ensures store.entries == old(store.entries)[RevokedSessionKey(sid) := now + ttlSeconds * 1000]
    {
      store.SetEx(RevokedSessionKey(sid), ttlSeconds, now);
    }

    method IsRevoked(sid: string, now: int) returns (revoked: bool)
      ensures revoked <==> Live(store.entries, RevokedSessionKey(sid), now)
    {
      var count := store.Exists(RevokedSessionKey(sid), now);
      revoked := count > 0;
    }
  }

  // ---- the guard ------------------------------------------------------------------------------

  /** The `Authorization` header as it arrives; a repeated one is an array. */
  datatype Header = Absent | Single(text: string) | Repeated

  function LowerChar(c: char): char {
    if 'A' <= c <= 'Z' then c - 'A' + 'a' else c
  }

  function Lower(s: string): string {
    seq(|s|, i requires 0 <= i < |s| => LowerChar(s[i]))
  }

  function BearerTokenOf(header: Header): Option<string> {
    if !header.Single? then None
    else
      var parts := Split(header.text, ' ');
      if Lower(parts[0]) != "bearer" || |parts| != 2 then None
      else if parts[1] == "" then None
      else Some(parts[1])
  }

  /** `bearer` in any letter case. */
  predicate IsBearer(scheme: string) {
    && |scheme| == 6
    && scheme[0] in {'b', 'B'} && scheme[1] in {'e', 'E'} && scheme[2] in {'a', 'A'}
    && scheme[3] in {'r', 'R'} && scheme[4] in {'e', 'E'} && scheme[5] in {'r', 'R'}
  }

  lemma LowerIsBearer(scheme: string)
    ensures Lower(scheme) == "bearer" <==> IsBearer(scheme)
  {
    if |scheme| == 6 {
      assert forall i :: 0 <= i < 6 ==> Lower(scheme)[i] == LowerChar(scheme[i]);
      assert Lower(scheme) == [LowerChar(scheme[0]), LowerChar(scheme[1]), LowerChar(scheme[2]),
                               LowerChar(scheme[3]), LowerChar(scheme[4]), LowerChar(scheme[5])];
    }
  }

  /** A token is taken verbatim from a single header `<scheme> <token>`, the scheme in any letter case. */
  lemma BearerTokenMeaning(header: Header, token: string)
    ensures BearerTokenOf(header) == Some(token) <==>
            && token != "" && ' ' !in token
            && exists scheme :: header == Single(scheme + [' '] + token) && IsBearer(scheme)
  {
    if BearerTokenOf(header) == Some(token) {
      var scheme := TakenFrom(header, token);
    }
    if token != "" && ' ' !in token {
      forall scheme | header == Single(scheme + [' '] + token) && IsBearer(scheme)
        ensures BearerTokenOf(header) == Some(token)
      {
        TakenVerbatim(scheme, token);
      }
    }
  }

  lemma TakenFrom(header: Header, token: string) returns (scheme: string)
    requires BearerTokenOf(header) == Some(token)
    ensures header == Single(scheme + [' '] + token) && IsBearer(scheme) && token != "" && ' ' !in token
  {
    var parts := Split(header.text, ' ');
    scheme := parts[0];
    JoinOfSplit(header.text, ' ');
    SplitParts(header.text, ' ');
    assert parts[1] in parts;
    assert parts == [scheme, token];
    JoinHead(scheme, [token], ' ');
    LowerIsBearer(scheme);
  }

  lemma TakenVerbatim(scheme: string, token: string)
    requires IsBearer(scheme) && token != "" && ' ' !in token
    ensures BearerTokenOf(Single(scheme + [' '] + token)) == Some(token)
  {
    LowerIsBearer(scheme);
    assert forall i :: 0 <= i < 6 ==> scheme[i] != ' ';
    SplitAt(scheme, ' ', token);
    OnePart(token, ' ');
    assert [scheme] + [token] == [scheme, token];
  }

  datatype OnUnavailable = Deny | Allow

  /** What the guard is told about one request. `None` for `cacheSays` or `databaseSays` is a failure to answer. */
  datatype Request = Request(
    isHttp: bool, isPublic: bool, header: Header,
    verified: Result<JwtClaims, Rejection>,
    cacheSays: Option<bool>, hasFallback: bool, databaseSays: Option<bool>,
    onUnavailable: Option<OnUnavailable>)

  /** `Admitted(None)` lets the request through with no claims attached. */
  datatype Decision = Admitted(claims: Option<JwtClaims>) | Unauthorized

  /** Cache first; the database only when the cache could not answer; policy when neither could. */
  method AskRevoked(r: Request) returns (revoked: bool)
    ensures r.cacheSays.Some? ==> revoked == r.cacheSays.value
    ensures r.cacheSays.None? && r.hasFallback && r.databaseSays.Some? ==> revoked == r.databaseSays.value
    ensures r.cacheSays.None? && !(r.hasFallback && r.databaseSays.Some?) ==>
            (revoked <==> r.onUnavailable != Some(Allow))
  {
    if r.cacheSays.Some? {
      return r.cacheSays.value;
    }
    if r.hasFallback {
      if r.databaseSays.Some? {
        return r.databaseSays.value;
      }
    }
    var policy := if r.onUnavailable.Some? then r.onUnavailable.value else Deny;
    revoked := policy == Deny;
  }

  /** Something entitled to answer said this session is not revoked, or the deployment chose to go without. */
  predicate NotKnownRevoked(r: Request) {
    || r.cacheSays == Some(false)
    || (r.cacheSays == None && r.hasFallback && r.databaseSays == Some(false))
    || (r.cacheSays == None && !(r.hasFallback && r.databaseSays.Some?) && r.onUnavailable == Some(Allow))
  }

  /** Deny by default: claims reach the request exactly when the token verified and was not revoked. */
  method CanActivate(r: Request) returns (decision: Decision)
    ensures decision == Admitted(None) <==> !r.isHttp || r.isPublic
    ensures forall c :: decision == Admitted(Some(c)) <==>
              r.isHttp && !r.isPublic && BearerTokenOf(r.header).Some? && r.verified == Success(c) && NotKnownRevoked(r)
  {
    if !r.isHttp {
      return Admitted(None);
    }
    if r.isPublic {
      return Admitted(None);
    }
    if BearerTokenOf(r.header).None? {
      return Unauthorized;
    }
    if r.verified.Failure? {
      return Unauthorized;
    }
    var revoked := AskRevoked(r);
    if revoked {
      return Unauthorized;
    }
    decision := Admitted(Some(r.verified.value));
  }

  // ---- runs: issuing and revoking under one clock ---------------------------------------------

  datatype Issued = Issued(claims: JwtClaims, at: int)

  /** `revokedAt` is history: when each session was last marked dead. `accessTtl` is the configured lifetime. */
  datatype World = World(
    now: int, accessTtl: int, entries: map<string, int>, revokedAt: map<string, int>, issued: set<Issued>)

  datatype Step = Tick(ms: nat) | Issue(claims: JwtClaims) | Revoke(sid: string)

  /** A token is issued at the clock's second, within the configured lifetime, and never for a dead session. */
  predicate Legal(w: World, step: Step) {
    step.Issue? ==>
      && step.claims.sid !in w.revokedAt
      && step.claims.iat == w.now / 1000
      && step.claims.exp <= step.claims.iat + w.accessTtl
  }

  function Apply(w: World, step: Step): World {
    match step
    case Tick(ms) => w.(now := w.now + ms)
    case Issue(claims) => w.(issued := w.issued + {Issued(claims, w.now)})
    case Revoke(sid) =>
      w.(entries := w.entries[RevokedSessionKey(sid) := w.now + EntryTtl(w.accessTtl) * 1000],
         revokedAt := w.revokedAt[sid := w.now])
  }

  function Run(w: World, steps: seq<Step>): World
    decreases |steps|
  {
    if steps == [] then w else Run(Apply(w, steps[0]), steps[1..])
  }

  predicate LegalRun(w: World, steps: seq<Step>)
    decreases |steps|
  {
    steps == [] || (Legal(w, steps[0]) && LegalRun(Apply(w, steps[0]), steps[1..]))
  }

  predicate Init(w: World) {
    w.accessTtl > 0 && w.entries == map[] && w.revokedAt == map[] && w.issued == {}
  }

  /** The entry of a dead session ends one lifetime and one leeway after its last revocation. */
  predicate EntryInv(w: World, sid: string)
    requires sid in w.revokedAt
  {
    && w.revokedAt[sid] <= w.now
    && RevokedSessionKey(sid) in w.entries
    && w.entries[RevokedSessionKey(sid)] == w.revokedAt[sid] + EntryTtl(w.accessTtl) * 1000
  }

  predicate IssuedInv(w: World, i: Issued) {
    && i.at <= w.now && i.claims.iat == i.at / 1000 && i.claims.exp <= i.claims.iat + w.accessTtl
    && (i.claims.sid in w.revokedAt ==> i.at <= w.revokedAt[i.claims.sid])
  }

  predicate Inv(w: World) {
    && w.accessTtl > 0
    && (forall sid | sid in w.revokedAt :: EntryInv(w, sid))
    && (forall i | i in w.issued :: IssuedInv(w, i))
  }

  lemma StepKeepsInv(w: World, step: Step)
    requires Inv(w) && Legal(w, step)
    ensures Inv(Apply(w, step))
  {
    var x := Apply(w, step);
    forall sid | sid in x.revokedAt ensures EntryInv(x, sid) {
      if step == Revoke(sid) {
      } else {
        assert EntryInv(w, sid);
        if step.Revoke? {
          KeysDiffer(sid, step.sid);
        }
      }
    }
    forall i | i in x.issued ensures IssuedInv(x, i) {
      if i in w.issued {
        assert IssuedInv(w, i);
      }
    }
  }

  lemma {:induction false} RunKeepsInv(w: World, steps: seq<Step>)
    requires Inv(w) && LegalRun(w, steps)
    ensures Inv(Run(w, steps))
    ensures Run(w, steps).now >= w.now && Run(w, steps).accessTtl == w.accessTtl && w.issued <= Run(w, steps).issued
    decreases |steps|
  {
    if steps != [] {
      StepKeepsInv(w, steps[0]);
      RunKeepsInv(Apply(w, steps[0]), steps[1..]);
    }
  }

  /** In every run, at every instant: a token of a dead session meets the live entry, or its own `exp`. */
  lemma NoInstantBetween(start: World, steps: seq<Step>, i: Issued)
    requires Init(start) && LegalRun(start, steps)
    requires var w := Run(start, steps); i in w.issued && i.claims.sid in w.revokedAt
    ensures var w := Run(start, steps);
            Live(w.entries, RevokedSessionKey(i.claims.sid), w.now) || ExpiredAt(i.claims, w.now)
  {
    RunKeepsInv(start, steps);
    EntryOutlivesToken(Run(start, steps), i);
  }

  lemma EntryOutlivesToken(w: World, i: Issued)
    requires Inv(w) && i in w.issued && i.claims.sid in w.revokedAt
    ensures Live(w.entries, RevokedSessionKey(i.claims.sid), w.now) || ExpiredAt(i.claims, w.now)
  {
    assert IssuedInv(w, i) && EntryInv(w, i.claims.sid);
    LifetimeIsExact(i.claims, i.at, i.claims.exp - i.claims.iat, w.now);
  }

  /** The guard reads the clock twice: `verify` at `before`, the store later at `after`. The token passes both. */
  predicate PassesGuard(before: World, after: World, i: Issued) {
    !ExpiredAt(i.claims, before.now) && !Live(after.entries, RevokedSessionKey(i.claims.sid), after.now)
  }

  /**
   * Over two instants there is a gap, and this is all of it. A request carrying a token of a session revoked
   * by the time the store is asked passes both checks exactly when it was verified before the token's end and
   * asked after the entry's; the token has then expired while the request was in progress, and the request was
   * in progress for longer than the session was left alone after the token was issued.
   */
  lemma GapIsOnlyInFlight(before: World, steps: seq<Step>, i: Issued)
    requires Inv(before) && LegalRun(before, steps) && i in before.issued
    requires i.claims.sid in Run(before, steps).revokedAt
    ensures var after := Run(before, steps);
            && (PassesGuard(before, after, i) <==>
                && before.now / 1000 < i.claims.exp + CLOCK_SKEW_LEEWAY_SECONDS
                && after.revokedAt[i.claims.sid] + EntryTtl(before.accessTtl) * 1000 <= after.now)
            && (PassesGuard(before, after, i) ==> ExpiredAt(i.claims, after.now) && before.now < after.now)
            && (PassesGuard(before, after, i) ==> after.now - before.now > after.revokedAt[i.claims.sid] - i.at)
  {
    RunKeepsInv(before, steps);
    EntryOutlivesToken(Run(before, steps), i);
    LifetimeIsExact(i.claims, i.at, i.claims.exp - i.claims.iat, before.now);
  }

  /**
   * In some run a token gets through, although its session was last revoked at least `delay` ms after the token
   * was issued and the guard's two readings of the clock are at most `elapsed` ms apart.
   */
  ghost predicate SlipsThrough(start: World, reach: seq<Step>, rest: seq<Step>, i: Issued, delay: int, elapsed: int) {
    && Init(start) && LegalRun(start, reach) && i in Run(start, reach).issued
    && var before := Run(start, reach);
       var after := Run(before, rest);
       && LegalRun(before, rest) && i.claims.sid in after.revokedAt
       && after.revokedAt[i.claims.sid] - i.at >= delay && after.now - before.now <= elapsed
       && PassesGuard(before, after, i)
  }

  lemma InitInv(w: World)
    requires Init(w)
    ensures Inv(w)
  {
  }

  lemma SlippingTakesLonger(start: World, reach: seq<Step>, rest: seq<Step>, i: Issued, delay: int, elapsed: int)
    requires SlipsThrough(start, reach, rest, i, delay, elapsed)
    ensures elapsed > delay
  {
    InitInv(start);
    RunKeepsInv(start, reach);
    GapIsOnlyInFlight(Run(start, reach), rest, i);
  }

  function ExampleClaims(): JwtClaims {
    JwtClaims("iam", "user", User, "client", "sid", 0, 900)
  }

  lemma RunTwo(w: World, a: Step, b: Step)
    ensures Run(w, [a, b]) == Apply(Apply(w, a), b)
    ensures LegalRun(w, [a, b]) <==> Legal(w, a) && Legal(Apply(w, a), b)
  {
    assert [a, b][1..] == [b] && [b][1..] == [];
    assert Run(Apply(w, a), [b]) == Run(Apply(Apply(w, a), b), []);
    assert LegalRun(Apply(w, a), [b]) <==> Legal(Apply(w, a), b) && LegalRun(Apply(Apply(w, a), b), []);
  }

  lemma {:induction false} RunConcat(w: World, a: seq<Step>, b: seq<Step>)
    ensures Run(w, a + b) == Run(Run(w, a), b)
    ensures LegalRun(w, a + b) <==> LegalRun(w, a) && LegalRun(Run(w, a), b)
    decreases |a|
  {
    if a == [] {
      assert a + b == b;
    } else {
      assert (a + b)[1..] == a[1..] + b;
      RunConcat(Apply(w, a[0]), a[1..], b);
    }
  }

  /**
   * The gap is real, and as wide as it is said to be. A token is issued at the start and its session revoked
   * `delay` ms later; the request is verified in the token's last millisecond, before or after that, and the
   * store is asked `delay` + 1 ms after the verification, in the very millisecond the entry ends.
   */
  lemma GapExample(delay: nat) returns (start: World, reach: seq<Step>, rest: seq<Step>, i: Issued)
    ensures SlipsThrough(start, reach, rest, i, delay, delay + 1)
  {
    var c := ExampleClaims();
    start, i := World(0, 900, map[], map[], {}), Issued(c, 0);
    if delay <= 959999 {
      reach, rest := [Issue(c), Tick(delay)] + [Revoke("sid"), Tick(959999 - delay)], [Tick(delay), Tick(1)];
      RunConcat(start, [Issue(c), Tick(delay)], [Revoke("sid"), Tick(959999 - delay)]);
      RunTwo(start, Issue(c), Tick(delay));
      RunTwo(Run(start, [Issue(c), Tick(delay)]), Revoke("sid"), Tick(959999 - delay));
      RunTwo(Run(start, reach), Tick(delay), Tick(1));
    } else {
      reach, rest := [Issue(c), Tick(959999)], [Tick(delay - 959999), Revoke("sid")] + [Tick(959999), Tick(1)];
      RunTwo(start, Issue(c), Tick(959999));
      var before := Run(start, reach);
      RunConcat(before, [Tick(delay - 959999), Revoke("sid")], [Tick(959999), Tick(1)]);
      RunTwo(before, Tick(delay - 959999), Revoke("sid"));
      RunTwo(Run(before, [Tick(delay - 959999), Revoke("sid")]), Tick(959999), Tick(1));
    }
  }

  /**
   * What a deployment can bound: where sessions are revoked no sooner than `delay` ms after a token is issued,
   * the guard never lets one through exactly when its two readings are never further apart than that.
   */
  lemma GuardIsTightIff(delay: nat, elapsed: int)
    ensures (forall start, reach, rest, i :: !SlipsThrough(start, reach, rest, i, delay, elapsed)) <==> elapsed <= delay
  {
    if elapsed <= delay {
      forall start, reach, rest, i ensures !SlipsThrough(start, reach, rest, i, delay, elapsed) {
        if SlipsThrough(start, reach, rest, i, delay, elapsed) {
          SlippingTakesLonger(start, reach, rest, i, delay, elapsed);
        }
      }
    } else {
      var start, reach, rest, i := GapExample(delay);
      assert SlipsThrough(start, reach, rest, i, delay, elapsed);
    }
  }
}
