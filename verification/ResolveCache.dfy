/** The client's grants cache, `libs/iam-client/src/resolve-cache.ts`: a TTL and one load per key. */
module ResolveCache {
  import opened Common
  import Scopes

  /** The cache never looks inside a grant set. */
  type Grants = Scopes.ResolvedGrants

  type Key = string

  const WHOLE_GRANT_SET: Key := "*"

  /** `applicationId ?? '*'` */
  function KeyOf(applicationId: Option<string>): Key {
    if applicationId.Some? then applicationId.value else WHOLE_GRANT_SET
  }

  /** Two queries share a key only if equal, or one is unfiltered and the other names the application "*". */
  lemma KeyOfCollisions(a: Option<string>, b: Option<string>)
    ensures KeyOf(a) == KeyOf(b) <==> a == b || {a, b} == {None, Some(WHOLE_GRANT_SET)}
  {
    if KeyOf(a) == KeyOf(b) && a != b {
      assert {a, b} == {None, Some(WHOLE_GRANT_SET)};
    }
    if {a, b} == {None, Some(WHOLE_GRANT_SET)} {
      assert a in {a, b} && b in {a, b};
    }
  }

  datatype Entry = Entry(grants: Grants, expiresAt: int)

  /** How a load ended: `None` is a rejection. `at` is the clock and `epoch` the number of drops so far. */
  datatype Settlement = Settlement(grants: Option<Grants>, at: int, epoch: nat)

  /** A load: under way, then settled (the `then` ran), then released (the `finally` ran). */
  datatype Load = Load(key: Key, settlement: Option<Settlement>, released: bool)

  /**
   * `origins` (the load an entry came from), `epoch` (drops so far), `droppedAll` and `dropped` (the epoch
   * of the last drop of everything, and of one key) are history: no operation reads them to decide.
   */
  datatype State = State(
    ttlMs: int, entries: map<Key, Entry>, inFlight: map<Key, nat>, loads: map<nat, Load>,
    origins: map<Key, nat>, epoch: nat, droppedAll: nat, dropped: map<Key, nat>)

  function Start(ttlMs: int): State {
    State(ttlMs, map[], map[], map[], map[], 0, 0, map[])
  }

  datatype Served = Hit(grants: Grants) | Joined(load: nat)

  /** `reload`: the key's load, started under `id` if there is none. */
  function Reload(s: State, key: Key, id: nat): (State, Served) {
    if key in s.inFlight then (s, Joined(s.inFlight[key]))
    else (s.(inFlight := s.inFlight[key := id], loads := s.loads[id := Load(key, None, false)]), Joined(id))
  }

  function Get(s: State, key: Key, now: int, id: nat): (State, Served) {
    if key in s.entries && s.entries[key].expiresAt > now then (s, Hit(s.entries[key].grants))
    else Reload(s.(entries := s.entries - {key}), key, id)
  }

  /** The `then` of a load, or its rejection. */
  function Settle(s: State, id: nat, grants: Option<Grants>, now: int): State
    requires id in s.loads
  {
    var load := s.loads[id];
    var t := s.(loads := s.loads[id := load.(settlement := Some(Settlement(grants, now, s.epoch)))]);
    if grants.Some? && s.ttlMs > 0 then
      t.(entries := s.entries[load.key := Entry(grants.value, now + s.ttlMs)], origins := s.origins[load.key := id])
    else t
  }

  /** The `finally` of a load, which deletes by key. */
  function Release(s: State, id: nat): State
    requires id in s.loads
  {
    s.(inFlight := s.inFlight - {s.loads[id].key}, loads := s.loads[id := s.loads[id].(released := true)])
  }

  /** `clear()`, and `invalidate()` with no argument. */
  function DropAll(s: State): State {
    s.(entries := map[], epoch := s.epoch + 1, droppedAll := s.epoch + 1)
  }

  /** `invalidate(applicationId)` */
  function Drop(s: State, key: Key): State {
    s.(entries := s.entries - {key}, epoch := s.epoch + 1, dropped := s.dropped[key := s.epoch + 1])
  }

  class Cache {
    const ttlMs: int
    var entries: map<Key, Entry>
    var inFlight: map<Key, nat>
    ghost var loads: map<nat, Load>
    ghost var origins: map<Key, nat>
    ghost var epoch: nat
    ghost var droppedAll: nat
    ghost var dropped: map<Key, nat>

    constructor (ttlSeconds: Option<int>)
      ensures Now() == Start(1000 * (if ttlSeconds.Some? then ttlSeconds.value else 60))
    {
      ttlMs := (if ttlSeconds.Some? then ttlSeconds.value else 60) * 1000;
      entries, inFlight, loads := map[], map[], map[];
      origins, epoch, droppedAll, dropped := map[], 0, 0, map[];
    }

    ghost function Now(): State
      reads this
    {
      State(ttlMs, entries, inFlight, loads, origins, epoch, droppedAll, dropped)
    }

    method GetGrants(applicationId: Option<string>, now: int, id: nat) returns (served: Served)
      modifies this
      ensures (Now(), served) == Get(old(Now()), KeyOf(applicationId), now, id)
    {
      var key := KeyOf(applicationId);
      if key in entries && entries[key].expiresAt > now {
        return Hit(entries[key].grants);
      }
      entries := entries - {key};
      if key in inFlight {
        return Joined(inFlight[key]);
      }
      served := ReloadGrants(applicationId, id);
    }

    method ReloadGrants(applicationId: Option<string>, id: nat) returns (served: Served)
      modifies this
      ensures (Now(), served) == Reload(old(Now()), KeyOf(applicationId), id)
    {
      var key := KeyOf(applicationId);
      if key in inFlight {
        return Joined(inFlight[key]);
      }
      loads := loads[id := Load(key, None, false)];
      inFlight := inFlight[key := id];
      served := Joined(id);
    }

    /** `key` is the one the load's callbacks captured. */
    method LoadSettled(key: Key, ghost id: nat, grants: Option<Grants>, now: int)
      requires id in loads && loads[id].key == key
      modifies this
      ensures Now() == Settle(old(Now()), id, grants, now)
    {
      if grants.Some? && ttlMs > 0 {
        entries := entries[key := Entry(grants.value, now + ttlMs)];
        origins := origins[key := id];
      }
      loads := loads[id := loads[id].(settlement := Some(Settlement(grants, now, epoch)))];
    }

    method LoadReleased(key: Key, ghost id: nat)
      requires id in loads && loads[id].key == key
      modifies this
      ensures Now() == Release(old(Now()), id)
    {
      inFlight := inFlight - {key};
      loads := loads[id := loads[id].(released := true)];
    }

    method Invalidate(applicationId: Option<string>)
      modifies this
      ensures Now() == if applicationId.None? then DropAll(old(Now())) else Drop(old(Now()), applicationId.value)
    {
      if applicationId.None? {
        Clear();
        return;
      }
      entries := entries - {applicationId.value};
      epoch := epoch + 1;
      dropped := dropped[applicationId.value := epoch];
    }

    method Clear()
      modifies this
      ensures Now() == DropAll(old(Now()))
    {
      entries := map[];
      epoch := epoch + 1;
      droppedAll := epoch;
    }
  }

  // ---- runs -----------------------------------------------------------------------------------

  datatype Step =
    | GetCalled(key: Key, now: int, id: nat)
    | ReloadCalled(key: Key, id: nat)
    | LoadSettles(id: nat, grants: Option<Grants>, now: int)
    | LoadReleases(id: nat)
    | InvalidateCalled(key: Key)
    | ClearCalled

  /** Loads get new handles, and settle and release once, in that order. */
  predicate Possible(s: State, step: Step) {
    match step
    case GetCalled(_, _, id) => id !in s.loads
    case ReloadCalled(_, id) => id !in s.loads
    case LoadSettles(id, _, _) => id in s.loads && s.loads[id].settlement.None?
    case LoadReleases(id) => id in s.loads && s.loads[id].settlement.Some? && !s.loads[id].released
    case _ => true
  }

  function Apply(s: State, step: Step): State
    requires Possible(s, step)
  {
    match step
    case GetCalled(key, now, id) => Get(s, key, now, id).0
    case ReloadCalled(key, id) => Reload(s, key, id).0
    case LoadSettles(id, grants, now) => Settle(s, id, grants, now)
    case LoadReleases(id) => Release(s, id)
    case InvalidateCalled(key) => Drop(s, key)
    case ClearCalled => DropAll(s)
  }

  function Run(s: State, steps: seq<Step>): Option<State>
    decreases |steps|
  {
    if steps == [] then Some(s)
    else if !Possible(s, steps[0]) then None
    else Run(Apply(s, steps[0]), steps[1..])
  }

  ghost predicate Reachable(s: State) {
    exists ttlMs, steps :: Run(Start(ttlMs), steps) == Some(s)
  }

  /** The epoch of the last drop that took this key's entry away. */
  function LastDrop(s: State, key: Key): nat {
    var own := if key in s.dropped then s.dropped[key] else 0;
    if own > s.droppedAll then own else s.droppedAll
  }

  /** An entry is what its load answered for that very key, after the last drop. */
  predicate EntryInv(s: State, key: Key)
    requires key in s.entries
  {
    && s.ttlMs > 0
    && key in s.origins && s.origins[key] in s.loads
    && var load := s.loads[s.origins[key]];
       && load.key == key && load.settlement.Some?
       && load.settlement.value.grants == Some(s.entries[key].grants)
       && s.entries[key].expiresAt == load.settlement.value.at + s.ttlMs
       && load.settlement.value.epoch >= LastDrop(s, key)
  }

  predicate KeyServed(s: State, key: Key)
    requires key in s.inFlight
  {
    var id := s.inFlight[key];
    id in s.loads && s.loads[id].key == key && !s.loads[id].released
  }

  predicate LoadRegistered(s: State, id: nat)
    requires id in s.loads
  {
    if s.loads[id].released then s.loads[id].settlement.Some?
    else s.loads[id].key in s.inFlight && s.inFlight[s.loads[id].key] == id
  }

  /** The unreleased loads are exactly those registered under their own key, and the released ones settled. */
  predicate LoadsInv(s: State) {
    && (forall key | key in s.inFlight :: KeyServed(s, key))
    && (forall id | id in s.loads :: LoadRegistered(s, id))
  }

  predicate DropsInv(s: State) {
    s.droppedAll <= s.epoch && forall key | key in s.dropped :: s.dropped[key] <= s.epoch
  }

  predicate Inv(s: State) {
    && LoadsInv(s)
    && (forall key | key in s.entries :: EntryInv(s, key))
    && DropsInv(s)
  }

  /** Loads and their registrations after `reload`, the only way in. */
  lemma ReloadKeepsLoadsInv(s: State, key: Key, id: nat)
    requires LoadsInv(s) && id !in s.loads
    ensures LoadsInv(Reload(s, key, id).0)
  {
    var t := Reload(s, key, id).0;
    forall k | k in t.inFlight ensures KeyServed(t, k) {
      if k in s.inFlight {
        assert KeyServed(s, k);
      }
    }
    forall l | l in t.loads ensures LoadRegistered(t, l) {
      if l in s.loads {
        assert LoadRegistered(s, l);
      }
    }
  }

  lemma SettleKeepsLoadsInv(s: State, id: nat, grants: Option<Grants>, now: int)
    requires LoadsInv(s) && id in s.loads
    ensures LoadsInv(Settle(s, id, grants, now))
  {
    var t := Settle(s, id, grants, now);
    forall k | k in t.inFlight ensures KeyServed(t, k) {
      assert KeyServed(s, k);
    }
    forall l | l in t.loads ensures LoadRegistered(t, l) {
      assert LoadRegistered(s, l);
    }
  }

  /** The release deletes by key, and what is registered there is this very load. */
  lemma ReleaseKeepsLoadsInv(s: State, id: nat)
    requires LoadsInv(s) && id in s.loads && !s.loads[id].released && s.loads[id].settlement.Some?
    ensures LoadsInv(Release(s, id))
  {
    var t := Release(s, id);
    assert LoadRegistered(s, id);
    forall k | k in t.inFlight ensures KeyServed(t, k) {
      assert KeyServed(s, k);
    }
    forall l | l in t.loads ensures LoadRegistered(t, l) {
      assert LoadRegistered(s, l);
    }
  }

  lemma SameLoads(s: State, t: State)
    requires LoadsInv(s) && t.loads == s.loads && t.inFlight == s.inFlight
    ensures LoadsInv(t)
  {
    forall k | k in t.inFlight ensures KeyServed(t, k) {
      assert KeyServed(s, k);
    }
    forall l | l in t.loads ensures LoadRegistered(t, l) {
      assert LoadRegistered(s, l);
    }
  }

  lemma StepKeepsLoadsInv(s: State, step: Step)
    requires LoadsInv(s) && Possible(s, step)
    ensures LoadsInv(Apply(s, step))
  {
    match step
    case GetCalled(key, now, id) =>
      var t := s.(entries := s.entries - {key});
      SameLoads(s, t);
      ReloadKeepsLoadsInv(t, key, id);
    case ReloadCalled(key, id) => ReloadKeepsLoadsInv(s, key, id);
    case LoadSettles(id, grants, now) => SettleKeepsLoadsInv(s, id, grants, now);
    case LoadReleases(id) => ReleaseKeepsLoadsInv(s, id);
    case InvalidateCalled(_) => SameLoads(s, Apply(s, step));
    case ClearCalled => SameLoads(s, Apply(s, step));
  }

  lemma SettleKeepsEntries(s: State, id: nat, grants: Option<Grants>, now: int, key: Key)
    requires DropsInv(s) && (key in s.entries ==> EntryInv(s, key))
    requires id in s.loads && s.loads[id].settlement.None? && key in Settle(s, id, grants, now).entries
    ensures EntryInv(Settle(s, id, grants, now), key)
  {
    assert LastDrop(s, key) <= s.epoch;
  }

  lemma StepKeepsEntries(s: State, step: Step, key: Key)
    requires DropsInv(s) && (key in s.entries ==> EntryInv(s, key))
    requires Possible(s, step) && key in Apply(s, step).entries
    ensures EntryInv(Apply(s, step), key)
  {
    match step
    case LoadSettles(id, grants, now) => SettleKeepsEntries(s, id, grants, now, key);
    case LoadReleases(id) => assert key in s.entries;
    case GetCalled(_, _, id) => assert key in s.entries && s.origins[key] != id;
    case ReloadCalled(_, id) => assert key in s.entries && s.origins[key] != id;
    case InvalidateCalled(dropped) => assert key in s.entries && key != dropped;
    case ClearCalled =>
  }

  lemma StepKeepsInv(s: State, step: Step)
    requires Inv(s) && Possible(s, step)
    ensures Inv(Apply(s, step))
  {
    StepKeepsLoadsInv(s, step);
    forall key | key in Apply(s, step).entries ensures EntryInv(Apply(s, step), key) {
      StepKeepsEntries(s, step, key);
    }
  }

  lemma {:induction false} RunKeepsInv(s: State, steps: seq<Step>)
    requires Inv(s) && Run(s, steps).Some?
    ensures Inv(Run(s, steps).value)
    decreases |steps|
  {
    if steps != [] {
      StepKeepsInv(s, steps[0]);
      RunKeepsInv(Apply(s, steps[0]), steps[1..]);
    }
  }

  // ---- main results ---------------------------------------------------------------------------

  /** At most one load per key is under way; a joined load is the key's own; nothing is stored at TTL zero. */
  lemma OneLoadPerKey(s: State, key: Key, now: int, id: nat)
    requires Reachable(s) && id !in s.loads
    ensures forall a, b | a in s.loads && b in s.loads && !s.loads[a].released && !s.loads[b].released
                          && s.loads[a].key == s.loads[b].key :: a == b
    ensures var (t, served) := Get(s, key, now, id);
            served.Joined? ==>
              served.load in t.loads
              && t.loads[served.load].key == key && !t.loads[served.load].released
    ensures s.ttlMs <= 0 ==> s.entries == map[]
  {
    var ttlMs, steps :| Run(Start(ttlMs), steps) == Some(s);
    RunKeepsInv(Start(ttlMs), steps);
    forall a | a in s.loads ensures LoadRegistered(s, a) {
    }
    if key in s.inFlight {
      assert KeyServed(s, key);
    }
    if s.entries != map[] {
      var k :| k in s.entries;
      assert EntryInv(s, k) && s.ttlMs > 0;
    }
  }

  /**
   * A cached answer was loaded successfully for that key, settled strictly less than one TTL ago, and
   * settled after the last `clear` or `invalidate` that concerned the key.
   */
  lemma HitIsYoungAndCurrent(s: State, key: Key, now: int, id: nat)
    requires Reachable(s) && Get(s, key, now, id).1.Hit?
    ensures exists l :: l in s.loads && s.loads[l].key == key && s.loads[l].settlement.Some?
              && s.loads[l].settlement.value.grants == Some(Get(s, key, now, id).1.grants)
              && now < s.loads[l].settlement.value.at + s.ttlMs
              && LastDrop(s, key) <= s.loads[l].settlement.value.epoch
  {
    var ttlMs, steps :| Run(Start(ttlMs), steps) == Some(s);
    RunKeepsInv(Start(ttlMs), steps);
    assert EntryInv(s, key);
    var l := s.origins[key];
    assert l in s.loads && s.loads[l].key == key;
  }

  /** This call hands out grants whose load had settled before the key was last dropped. */
  predicate ServesDropped(s: State, key: Key, now: int, id: nat) {
    var (t, served) := Get(s, key, now, id);
    && served.Joined? && served.load in t.loads
    && t.loads[served.load].settlement.Some?
    && t.loads[served.load].settlement.value.grants.Some?
    && t.loads[served.load].settlement.value.epoch < LastDrop(s, key)
  }

  /**
   * After a drop, a `get` hands out a value settled before it exactly when that load's `finally` has not run
   * yet: between a load's two callbacks it is still the one to join. A released load is never handed out again.
   */
  lemma DroppedServedIff(s: State, key: Key, now: int, id: nat)
    requires Reachable(s) && id !in s.loads
    ensures ServesDropped(s, key, now, id) <==>
            && !(key in s.entries && s.entries[key].expiresAt > now)
            && exists l :: l in s.loads && s.loads[l].key == key && !s.loads[l].released
                 && s.loads[l].settlement.Some? && s.loads[l].settlement.value.grants.Some?
                 && s.loads[l].settlement.value.epoch < LastDrop(s, key)
  {
    var ttlMs, steps :| Run(Start(ttlMs), steps) == Some(s);
    RunKeepsInv(Start(ttlMs), steps);
    forall l | l in s.loads ensures LoadRegistered(s, l) {
    }
    if key in s.inFlight {
      assert KeyServed(s, key);
      var l := s.inFlight[key];
      assert l in s.loads && s.loads[l].key == key && !s.loads[l].released;
    }
  }

  /** Such a moment is reachable: a load settles, the identity changes, and a new `get` comes before the release. */
  lemma DroppedServedExample(grants: Grants)
    ensures exists s :: Reachable(s) && ServesDropped(s, "app", 0, 1)
  {
    var s0 := Start(60000);
    var steps := [GetCalled("app", 0, 0), LoadSettles(0, Some(grants), 0), ClearCalled];
    var s1 := Apply(s0, steps[0]);
    var s2 := Apply(s1, steps[1]);
    var s3 := Apply(s2, steps[2]);
    assert steps[1..][1..] == [ClearCalled];
    assert Run(s2, [ClearCalled]) == Some(s3);
    assert Run(s1, steps[1..]) == Some(s3);
    assert Run(s0, steps) == Some(s3);
    assert Reachable(s3) && ServesDropped(s3, "app", 0, 1);
  }

  // ---- what a drop leaves behind --------------------------------------------------------------

  /** `clear()` and `invalidate()` concern every key, `invalidate(key)` its own. */
  predicate Concerns(dropped: Option<Key>, key: Key) {
    dropped.None? || dropped.value == key
  }

  function Dropping(s: State, dropped: Option<Key>): State {
    if dropped.None? then DropAll(s) else Drop(s, dropped.value)
  }

  /** A `get` in `u` hands out what a load begun by `s` answered: stored, or still to be joined. */
  predicate HandsOutOld(s: State, u: State, key: Key, now: int, id: nat) {
    match Get(u, key, now, id).1
    case Hit(_) => key in u.origins && u.origins[key] in s.loads
    case Joined(load) => load in s.loads
  }

  /** The same from the store alone. */
  predicate StoredOld(s: State, u: State, key: Key, now: int, id: nat) {
    Get(u, key, now, id).1.Hit? && HandsOutOld(s, u, key, now, id)
  }

  /** Some later `get` of a dropped key, after any steps whatever, does so. */
  ghost predicate HandsOutLater(s: State, dropped: Option<Key>, key: Key) {
    exists steps, now, id :: HandsOutAfter(s, dropped, key, steps, now, id)
  }

  ghost predicate StoredLater(s: State, dropped: Option<Key>, key: Key) {
    exists steps, now, id :: HandsOutAfter(s, dropped, key, steps, now, id)
                             && StoredOld(s, Run(Dropping(s, dropped), steps).value, key, now, id)
  }

  predicate HandsOutAfter(s: State, dropped: Option<Key>, key: Key, steps: seq<Step>, now: int, id: nat) {
    && Run(Dropping(s, dropped), steps).Some?
    && var u := Run(Dropping(s, dropped), steps).value;
       id !in u.loads && HandsOutOld(s, u, key, now, id)
  }

  /** What is left in `u` of the loads begun by `s`, for the keys dropped between them. */
  predicate LeftOver(s: State, dropped: Option<Key>, u: State) {
    && u.ttlMs == s.ttlMs
    && (forall l | l in s.loads :: LoadGoesOn(s, u, l))
    && (forall key | key in u.entries && Concerns(dropped, key) :: EntryLeftOver(s, u, key))
    && (forall key | key in u.inFlight && Concerns(dropped, key) :: FlightLeftOver(s, u, key))
  }

  predicate LoadGoesOn(s: State, u: State, l: nat)
    requires l in s.loads
  {
    l in u.loads && u.loads[l].key == s.loads[l].key && (s.loads[l].settlement.Some? ==> u.loads[l].settlement.Some?)
  }

  predicate EntryLeftOver(s: State, u: State, key: Key) {
    key in u.origins && (u.origins[key] in s.loads ==>
                           s.ttlMs > 0 && s.loads[u.origins[key]].key == key
                           && s.loads[u.origins[key]].settlement.None?)
  }

  predicate FlightLeftOver(s: State, u: State, key: Key)
    requires key in u.inFlight
  {
    u.inFlight[key] in s.loads ==> key in s.inFlight
  }

  lemma ReloadKeepsLeftOver(s: State, dropped: Option<Key>, u: State, key: Key, id: nat)
    requires LeftOver(s, dropped, u) && id !in u.loads
    ensures LeftOver(s, dropped, Reload(u, key, id).0)
  {
    var t := Reload(u, key, id).0;
    forall l | l in s.loads ensures LoadGoesOn(s, t, l) {
      assert LoadGoesOn(s, u, l);
    }
    forall k | k in t.entries && Concerns(dropped, k) ensures EntryLeftOver(s, t, k) {
      assert EntryLeftOver(s, u, k);
    }
    forall k | k in t.inFlight && Concerns(dropped, k) ensures FlightLeftOver(s, t, k) {
      if t.inFlight[k] in s.loads {
        assert LoadGoesOn(s, u, t.inFlight[k]);
        assert FlightLeftOver(s, u, k);
      }
    }
  }

  lemma SettleKeepsLeftOver(s: State, dropped: Option<Key>, u: State, id: nat, grants: Option<Grants>, now: int)
    requires LeftOver(s, dropped, u) && id in u.loads && u.loads[id].settlement.None?
    ensures LeftOver(s, dropped, Settle(u, id, grants, now))
  {
    var t := Settle(u, id, grants, now);
    forall l | l in s.loads ensures LoadGoesOn(s, t, l) {
      assert LoadGoesOn(s, u, l);
    }
    forall k | k in t.entries && Concerns(dropped, k) ensures EntryLeftOver(s, t, k) {
      if id in s.loads {
        assert LoadGoesOn(s, u, id);
      }
      if k in u.entries {
        assert EntryLeftOver(s, u, k);
      }
    }
    forall k | k in t.inFlight && Concerns(dropped, k) ensures FlightLeftOver(s, t, k) {
      assert FlightLeftOver(s, u, k);
    }
  }

  /** Nothing new is stored or registered. */
  lemma FewerKeepLeftOver(s: State, dropped: Option<Key>, u: State, t: State)
    requires LeftOver(s, dropped, u) && t.ttlMs == u.ttlMs && t.origins == u.origins
    requires t.entries.Keys <= u.entries.Keys
    requires forall k | k in t.inFlight :: k in u.inFlight && t.inFlight[k] == u.inFlight[k]
    requires forall l | l in u.loads :: l in t.loads && t.loads[l].(released := true) == u.loads[l].(released := true)
    ensures LeftOver(s, dropped, t)
  {
    forall l | l in s.loads ensures LoadGoesOn(s, t, l) {
      assert LoadGoesOn(s, u, l);
      assert t.loads[l].(released := true) == u.loads[l].(released := true);
    }
    forall k | k in t.entries && Concerns(dropped, k) ensures EntryLeftOver(s, t, k) {
      assert EntryLeftOver(s, u, k);
    }
    forall k | k in t.inFlight && Concerns(dropped, k) ensures FlightLeftOver(s, t, k) {
      assert FlightLeftOver(s, u, k);
    }
  }

  lemma StepKeepsLeftOver(s: State, dropped: Option<Key>, u: State, step: Step)
    requires LeftOver(s, dropped, u) && Possible(u, step)
    ensures LeftOver(s, dropped, Apply(u, step))
  {
    match step
    case GetCalled(key, now, id) =>
      var t := u.(entries := u.entries - {key});
      FewerKeepLeftOver(s, dropped, u, t);
      ReloadKeepsLeftOver(s, dropped, t, key, id);
    case ReloadCalled(key, id) => ReloadKeepsLeftOver(s, dropped, u, key, id);
    case LoadSettles(id, grants, now) => SettleKeepsLeftOver(s, dropped, u, id, grants, now);
    case LoadReleases(id) => FewerKeepLeftOver(s, dropped, u, Release(u, id));
    case InvalidateCalled(key) => FewerKeepLeftOver(s, dropped, u, Drop(u, key));
    case ClearCalled => FewerKeepLeftOver(s, dropped, u, DropAll(u));
  }

  lemma {:induction false} RunKeepsLeftOver(s: State, dropped: Option<Key>, u: State, steps: seq<Step>)
    requires LeftOver(s, dropped, u) && Run(u, steps).Some?
    ensures LeftOver(s, dropped, Run(u, steps).value)
    decreases |steps|
  {
    if steps != [] {
      StepKeepsLeftOver(s, dropped, u, steps[0]);
      RunKeepsLeftOver(s, dropped, Apply(u, steps[0]), steps[1..]);
    }
  }

  /** Old grants can only come out where a load of the key was under way, or from the store where it was unsettled. */
  lemma OldGrantsNeedALoad(s: State, dropped: Option<Key>, key: Key, steps: seq<Step>, now: int, id: nat)
    requires Inv(s) && Concerns(dropped, key) && HandsOutAfter(s, dropped, key, steps, now, id)
    ensures key in s.inFlight
    ensures StoredOld(s, Run(Dropping(s, dropped), steps).value, key, now, id) ==>
              s.ttlMs > 0 && s.loads[s.inFlight[key]].settlement.None?
  {
    var d := Dropping(s, dropped);
    forall l | l in s.loads ensures LoadGoesOn(s, d, l) {
    }
    assert LeftOver(s, dropped, d);
    RunKeepsLeftOver(s, dropped, d, steps);
    var u := Run(d, steps).value;
    forall l | l in s.loads ensures l in u.loads {
      assert LoadGoesOn(s, u, l);
    }
    if Get(u, key, now, id).1.Hit? {
      assert EntryLeftOver(s, u, key);
      assert LoadRegistered(s, u.origins[key]);
    } else if key in u.inFlight {
      assert FlightLeftOver(s, u, key);
    }
    if key in s.inFlight {
      assert KeyServed(s, key);
    }
  }

  lemma {:induction false} FreshHandle(ids: set<nat>) returns (id: nat)
    ensures forall i | i in ids :: i < id
  {
    if ids == {} {
      id := 0;
    } else {
      var i :| i in ids;
      var rest := FreshHandle(ids - {i});
      id := if rest > i then rest else i + 1;
      forall j | j in ids ensures j < id {
        assert j != i ==> j in ids - {i};
      }
    }
  }

  /**
   * What a token change leaves behind. After `clear` or `invalidate`, whatever follows, a later `get` of a dropped
   * key can hand out grants of a load begun before exactly when one was under way for that key at that moment;
   * and can find them stored exactly when it had not settled, under a positive TTL.
   */
  lemma DropIsCleanIff(s: State, dropped: Option<Key>, key: Key)
    requires Reachable(s) && Concerns(dropped, key)
    ensures HandsOutLater(s, dropped, key) <==> key in s.inFlight
    ensures StoredLater(s, dropped, key) <==>
            s.ttlMs > 0 && key in s.inFlight && s.inFlight[key] in s.loads && s.loads[s.inFlight[key]].settlement.None?
  {
    var ttlMs, before :| Run(Start(ttlMs), before) == Some(s);
    RunKeepsInv(Start(ttlMs), before);
    var d := Dropping(s, dropped);
    if key in s.inFlight {
      assert KeyServed(s, key);
      var l := s.inFlight[key];
      var id := FreshHandle(s.loads.Keys);
      assert id !in d.loads;
      assert HandsOutAfter(s, dropped, key, [], 0, id);
      if s.ttlMs > 0 && s.loads[l].settlement.None? {
        var step := LoadSettles(l, Some(Scopes.ResolvedGrants([], map[])), 0);
        assert Run(d, [step]) == Run(Apply(d, step), []);
        assert HandsOutAfter(s, dropped, key, [step], 0, id);
        assert StoredOld(s, Run(d, [step]).value, key, 0, id);
      }
    }
    forall steps, now, id | HandsOutAfter(s, dropped, key, steps, now, id)
      ensures key in s.inFlight
      ensures StoredOld(s, Run(d, steps).value, key, now, id) ==>
              s.ttlMs > 0 && s.loads[s.inFlight[key]].settlement.None?
      ensures s.inFlight[key] in s.loads
    {
      OldGrantsNeedALoad(s, dropped, key, steps, now, id);
      assert KeyServed(s, key);
    }
  }

  // ---- what the cache is for ------------------------------------------------------------------

  /** A drop of one application is not felt by any other key. */
  lemma DropSparesOthers(s: State, dropped: Key, key: Key, now: int, id: nat)
    requires key != dropped
    ensures Get(Drop(s, dropped), key, now, id).1 == Get(s, key, now, id).1
    ensures Reload(Drop(s, dropped), key, id).1 == Reload(s, key, id).1
    ensures key in s.entries <==> key in Drop(s, dropped).entries
    ensures dropped !in Drop(s, dropped).entries && Drop(s, dropped).inFlight == s.inFlight
  {
  }

  /** A reload never answers from the store, fresh or not: it is handed a load of the key, its own if there was none. */
  lemma ReloadAlwaysLoads(s: State, key: Key, id: nat)
    requires Reachable(s) && id !in s.loads
    ensures var (t, served) := Reload(s, key, id);
            && served.Joined? && t.entries == s.entries
            && served.load in t.loads && t.loads[served.load].key == key && !t.loads[served.load].released
            && (served.load == id <==> key !in s.inFlight)
  {
    var ttlMs, steps :| Run(Start(ttlMs), steps) == Some(s);
    RunKeepsInv(Start(ttlMs), steps);
    if key in s.inFlight {
      assert KeyServed(s, key);
    }
  }

  /** The step neither drops the key, nor settles another successful load of it, nor asks for it after `until`. */
  predicate LeavesAlone(s: State, step: Step, key: Key, until: int)
    requires Possible(s, step)
  {
    match step
    case GetCalled(k, now, _) => k == key ==> now < until
    case LoadSettles(id, grants, _) => s.loads[id].key == key ==> grants.None?
    case InvalidateCalled(k) => k != key
    case ClearCalled => false
    case _ => true
  }

  predicate RunLeavesAlone(s: State, steps: seq<Step>, key: Key, until: int)
    decreases |steps|
  {
    steps == []
    || (Possible(s, steps[0]) && LeavesAlone(s, steps[0], key, until)
        && RunLeavesAlone(Apply(s, steps[0]), steps[1..], key, until))
  }

  lemma {:induction false} EntryStays(s: State, steps: seq<Step>, key: Key, entry: Entry)
    requires key in s.entries && s.entries[key] == entry && RunLeavesAlone(s, steps, key, entry.expiresAt)
    ensures Run(s, steps).Some? && key in Run(s, steps).value.entries && Run(s, steps).value.entries[key] == entry
    decreases |steps|
  {
    if steps != [] {
      EntryStays(Apply(s, steps[0]), steps[1..], key, entry);
    }
  }

  /**
   * What a load answered is what every `get` of its key answers for one TTL, at once and from the store, whatever
   * other keys, drops of other keys, failing loads and reloads under way do meanwhile.
   */
  lemma SettledAnswersForOneTtl(s: State, l: nat, grants: Grants, at: int, steps: seq<Step>, now: int, id: nat)
    requires s.ttlMs > 0 && Possible(s, LoadSettles(l, Some(grants), at)) && now < at + s.ttlMs
    requires RunLeavesAlone(Settle(s, l, Some(grants), at), steps, s.loads[l].key, at + s.ttlMs)
    ensures Run(Settle(s, l, Some(grants), at), steps).Some?
    ensures var u := Run(Settle(s, l, Some(grants), at), steps).value;
            Get(u, s.loads[l].key, now, id) == (u, Hit(grants))
  {
    EntryStays(Settle(s, l, Some(grants), at), steps, s.loads[l].key, Entry(grants, at + s.ttlMs));
  }
}
