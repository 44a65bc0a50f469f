/** Scope coverage and the authorization decision, `libs/auth-kit/src/scope-resolver.ts`. */
module Scopes {
  import opened Common
  import opened Text

  type ScopePath = string
  type PermissionKey = string

  const SEPARATOR: char := '.'

  datatype ResolvedGrants = ResolvedGrants(permissions: seq<PermissionKey>, scopes: map<PermissionKey, seq<ScopePath>>)

  /** `path <@ prefix`, as the string test the server runs. */
  predicate PathIsWithin(path: ScopePath, prefix: ScopePath) {
    path == prefix || prefix + [SEPARATOR] <= path
  }

  function Labels(path: ScopePath): seq<string> {
    Split(path, SEPARATOR)
  }

  lemma WithinGivesLabelPrefix(path: ScopePath, prefix: ScopePath)
    requires PathIsWithin(path, prefix)
    ensures Labels(prefix) <= Labels(path)
  {
    if path != prefix {
      var rest := path[|prefix| + 1..];
      assert path == prefix + [SEPARATOR] + rest;
      SplitConcat(prefix, SEPARATOR, rest);
    }
  }

  lemma LabelPrefixGivesWithin(path: ScopePath, prefix: ScopePath)
    requires Labels(prefix) <= Labels(path)
    ensures PathIsWithin(path, prefix)
  {
    JoinOfSplit(prefix, SEPARATOR);
    JoinOfSplit(path, SEPARATOR);
    var front := Labels(prefix);
    var rest := Labels(path)[|front|..];
    assert Labels(path) == front + rest;
    if rest == [] {
      assert Labels(path) == front;
    } else {
      JoinConcat(front, rest, SEPARATOR);
      assert path == prefix + [SEPARATOR] + Join(rest, SEPARATOR);
    }
  }

  /** The string test is the label-wise ancestor test, for all strings, empty ones and odd dots included. */
  lemma WithinIffLabelPrefix(path: ScopePath, prefix: ScopePath)
    ensures PathIsWithin(path, prefix) <==> Labels(prefix) <= Labels(path)
  {
    if PathIsWithin(path, prefix) {
      WithinGivesLabelPrefix(path, prefix);
    }
    if Labels(prefix) <= Labels(path) {
      LabelPrefixGivesWithin(path, prefix);
    }
  }

  /** "Beneath" is a partial order, and the ancestors of one path form a chain. */
  lemma WithinIsTreeOrder(a: ScopePath, b: ScopePath, c: ScopePath)
    ensures PathIsWithin(a, a)
    ensures PathIsWithin(a, b) && PathIsWithin(b, a) ==> a == b
    ensures PathIsWithin(a, b) && PathIsWithin(b, c) ==> PathIsWithin(a, c)
    ensures PathIsWithin(c, a) && PathIsWithin(c, b) ==> PathIsWithin(a, b) || PathIsWithin(b, a)
  {
    WithinIffLabelPrefix(a, b);
    WithinIffLabelPrefix(b, a);
    WithinIffLabelPrefix(b, c);
    WithinIffLabelPrefix(a, c);
    WithinIffLabelPrefix(c, a);
    WithinIffLabelPrefix(c, b);
    if PathIsWithin(c, a) && PathIsWithin(c, b) {
      var la, lb, lc := Labels(a), Labels(b), Labels(c);
      assert la == lc[..|la|] && lb == lc[..|lb|];
      if |la| <= |lb| {
        assert lb[..|la|] == la;
      } else {
        assert la[..|lb|] == lb;
      }
    }
  }

  // ---- coverage -------------------------------------------------------------------------------

  predicate HoldsPermission(grants: ResolvedGrants, permission: PermissionKey) {
    permission in grants.permissions
  }

  predicate AnyCovers(paths: seq<ScopePath>, target: ScopePath) {
    exists path :: path in paths && PathIsWithin(target, path)
  }

  /** The point check: exact membership, then an ancestor among the permission's paths. */
  predicate CoversPath(grants: ResolvedGrants, permission: PermissionKey, target: ScopePath) {
    if !HoldsPermission(grants, permission) then false
    else permission in grants.scopes && AnyCovers(grants.scopes[permission], target)
  }

  /** The subtree roots for query narrowing. */
  function AllowedPathsFor(grants: ResolvedGrants, permission: PermissionKey): seq<ScopePath> {
    if permission in grants.scopes then grants.scopes[permission] else []
  }

  // ---- the browser's copy ---------------------------------------------------------------------

  /** `libs/web-kit/src/scope-coverage.ts` */
  predicate PathCovers(granted: ScopePath, target: ScopePath) {
    if granted == "" || target == "" then false
    else target == granted || granted + [SEPARATOR] <= target
  }

  predicate HoldsPermissionAt(grants: Option<ResolvedGrants>, permission: PermissionKey, path: ScopePath) {
    if grants.None? then false
    else exists granted :: granted in AllowedPathsFor(grants.value, permission) && PathCovers(granted, path)
  }

  /** The two copies differ exactly on an empty granted path reaching an empty target or one led by a dot. */
  lemma BrowserCopyDiffersIff(granted: ScopePath, target: ScopePath)
    ensures PathCovers(granted, target) != PathIsWithin(target, granted) <==>
            granted == "" && (target == "" || target[0] == SEPARATOR)
  {
    if granted == "" && target != "" {
      assert granted + [SEPARATOR] == [SEPARATOR];
      assert [SEPARATOR] <= target <==> target[0] == SEPARATOR;
    }
  }

  /** A path that is not the empty one covers the target. */
  predicate NamedCovers(paths: seq<ScopePath>, target: ScopePath) {
    exists path :: path in paths && path != "" && PathIsWithin(target, path)
  }

  /** The empty path is listed and takes the target in: an empty one, or one led by a dot. */
  predicate EmptyCovers(paths: seq<ScopePath>, target: ScopePath) {
    "" in paths && (target == "" || target[0] == SEPARATOR)
  }

  /**
   * The browser shows a control exactly where the server would allow it, unless the permission is not held and
   * a path listed for it covers the target, or it is held and only the empty path covers the target.
   */
  lemma BrowserAgreesIff(grants: ResolvedGrants, permission: PermissionKey, target: ScopePath)
    ensures var paths := AllowedPathsFor(grants, permission);
            HoldsPermissionAt(Some(grants), permission, target) == CoversPath(grants, permission, target) <==>
            if HoldsPermission(grants, permission) then EmptyCovers(paths, target) ==> NamedCovers(paths, target)
            else !NamedCovers(paths, target)
  {
    var paths := AllowedPathsFor(grants, permission);
    forall granted ensures PathCovers(granted, target) <==> granted != "" && PathIsWithin(target, granted) {
      BrowserCopyDiffersIff(granted, target);
    }
    assert HoldsPermissionAt(Some(grants), permission, target) <==> NamedCovers(paths, target) by {
      if NamedCovers(paths, target) {
        var path :| path in paths && path != "" && PathIsWithin(target, path);
        assert PathCovers(path, target);
      }
    }
    ServerCoverage(paths, target);
  }

  lemma ServerCoverage(paths: seq<ScopePath>, target: ScopePath)
    ensures AnyCovers(paths, target) <==> NamedCovers(paths, target) || EmptyCovers(paths, target)
  {
    assert "" + [SEPARATOR] == [SEPARATOR];
    if EmptyCovers(paths, target) {
      assert PathIsWithin(target, "");
    }
  }

  // ---- minimal covering sets ------------------------------------------------------------------

  predicate Covered(paths: set<ScopePath>, target: ScopePath) {
    exists path :: path in paths && PathIsWithin(target, path)
  }

  ghost predicate SameCoverage(p: set<ScopePath>, q: set<ScopePath>) {
    forall target :: Covered(p, target) <==> Covered(q, target)
  }

  /** No path lies within another. */
  predicate Antichain(paths: set<ScopePath>) {
    forall p, q :: p in paths && q in paths && PathIsWithin(p, q) ==> p == q
  }

  predicate Redundant(paths: set<ScopePath>, path: ScopePath) {
    exists other :: other in paths && other != path && PathIsWithin(path, other)
  }

  /** The set with every path that lies within another one dropped. */
  function Reduced(paths: set<ScopePath>): set<ScopePath> {
    set path | path in paths && !Redundant(paths, path)
  }

  /** Every path has an undominated one above it: going up strictly shortens. */
  lemma {:induction false} RootAbove(paths: set<ScopePath>, path: ScopePath) returns (root: ScopePath)
    requires path in paths
    ensures root in Reduced(paths) && PathIsWithin(path, root)
    decreases |path|
  {
    if Redundant(paths, path) {
      var other :| other in paths && other != path && PathIsWithin(path, other);
      root := RootAbove(paths, other);
      WithinIsTreeOrder(path, other, root);
    } else {
      root := path;
    }
  }

  /** Dropping any covered paths, up to and including all of them, changes no coverage answer. */
  lemma DroppingKeepsCoverage(paths: set<ScopePath>, kept: set<ScopePath>)
    requires Reduced(paths) <= kept <= paths
    ensures SameCoverage(paths, kept)
  {
    forall target ensures Covered(paths, target) <==> Covered(kept, target) {
      if Covered(paths, target) {
        var path :| path in paths && PathIsWithin(target, path);
        var root := RootAbove(paths, path);
        WithinIsTreeOrder(target, path, root);
        assert root in kept;
      }
    }
  }

  /** Two antichains with the same coverage are the same set. */
  lemma CoverageDeterminesAntichain(p: set<ScopePath>, q: set<ScopePath>)
    requires Antichain(p) && Antichain(q) && SameCoverage(p, q)
    ensures p == q
  {
    AntichainWithin(p, q);
    AntichainWithin(q, p);
  }

  lemma AntichainWithin(p: set<ScopePath>, q: set<ScopePath>)
    requires Antichain(p) && SameCoverage(p, q)
    ensures p <= q
  {
    forall a | a in p ensures a in q {
      WithinIsTreeOrder(a, a, a);
      assert Covered(p, a);
      var b :| b in q && PathIsWithin(a, b);
      WithinIsTreeOrder(b, b, b);
      assert Covered(q, b);
      var c :| c in p && PathIsWithin(b, c);
      WithinIsTreeOrder(a, b, c);
      assert a == c;
      WithinIsTreeOrder(a, b, a);
    }
  }

  /** The minimal covering set exists, and it is the only antichain with that coverage. */
  lemma ReducedIsTheMinimalCover(paths: set<ScopePath>, other: set<ScopePath>)
    ensures Antichain(Reduced(paths)) && SameCoverage(paths, Reduced(paths))
    ensures Antichain(other) && SameCoverage(paths, other) <==> other == Reduced(paths)
  {
    forall p, q | p in Reduced(paths) && q in Reduced(paths) && PathIsWithin(p, q) ensures p == q {
      assert p in paths && q in paths;
    }
    DroppingKeepsCoverage(paths, Reduced(paths));
    if Antichain(other) && SameCoverage(paths, other) {
      assert SameCoverage(other, Reduced(paths));
      CoverageDeterminesAntichain(other, Reduced(paths));
    }
  }

  // ---- the decision ---------------------------------------------------------------------------

  datatype Outcome = Allowed | PermissionDenied | ScopeDenied

  datatype Decision = Decision(outcome: Outcome, permissions: seq<PermissionKey>, scopeNodeId: Option<string>)

  /** What a route declares. `scopeFrom` is whether it names a place in the request at all. */
  datatype Requirement = Requirement(permissions: seq<PermissionKey>, scopeFrom: bool, scopeOptional: bool)

  /** One answer of the grants source; `targetPath` is `None` for a node this subject cannot see. */
  datatype Snapshot = Snapshot(grants: ResolvedGrants, targetPath: Option<ScopePath>)

  function Held(grants: ResolvedGrants, permissions: seq<PermissionKey>): seq<PermissionKey> {
    if permissions == [] then []
    else (if HoldsPermission(grants, permissions[0]) then [permissions[0]] else []) + Held(grants, permissions[1..])
  }

  /** The first held key that covers the target. */
  function FirstCovering(grants: ResolvedGrants, held: seq<PermissionKey>, target: ScopePath): Option<PermissionKey> {
    if held == [] then None
    else if CoversPath(grants, held[0], target) then Some(held[0])
    else FirstCovering(grants, held[1..], target)
  }

  function Decide(requirement: Requirement, scopeNodeId: Option<string>, snapshot: Snapshot): Decision {
    var scoped := requirement.scopeFrom && scopeNodeId.Some?;
    var at := if scoped then scopeNodeId else None;
    var held := Held(snapshot.grants, requirement.permissions);
    if |held| == 0 then Decision(PermissionDenied, requirement.permissions, at)
    else if requirement.scopeFrom && scopeNodeId.None? then
      if requirement.scopeOptional then Decision(Allowed, [held[0]], at) else Decision(ScopeDenied, held, at)
    else if !scoped then Decision(Allowed, [held[0]], at)
    else if snapshot.targetPath.None? then Decision(Allowed, [held[0]], at)
    else
      var covering := FirstCovering(snapshot.grants, held, snapshot.targetPath.value);
      if covering.None? then Decision(ScopeDenied, held, at) else Decision(Allowed, [covering.value], at)
  }

  lemma {:induction false} HeldMeaning(grants: ResolvedGrants, permissions: seq<PermissionKey>)
    ensures forall p :: p in Held(grants, permissions) <==> p in permissions && HoldsPermission(grants, p)
  {
    if permissions != [] {
      HeldMeaning(grants, permissions[1..]);
      assert permissions == [permissions[0]] + permissions[1..];
    }
  }

  lemma {:induction false} FirstCoveringMeaning(grants: ResolvedGrants, held: seq<PermissionKey>, target: ScopePath)
    ensures FirstCovering(grants, held, target).None? <==> forall p | p in held :: !CoversPath(grants, p, target)
    ensures FirstCovering(grants, held, target).Some? ==>
              var p := FirstCovering(grants, held, target).value;
              p in held && CoversPath(grants, p, target)
  {
    if held != [] {
      FirstCoveringMeaning(grants, held[1..], target);
      assert held == [held[0]] + held[1..];
    }
  }

  /** One key is enough when it is held, and covers the target where there is one to cover. */
  predicate Admits(r: Requirement, scopeNodeId: Option<string>, snapshot: Snapshot, key: PermissionKey) {
    && HoldsPermission(snapshot.grants, key)
    && (r.scopeFrom && scopeNodeId.None? ==> r.scopeOptional)
    && (r.scopeFrom && scopeNodeId.Some? && snapshot.targetPath.Some? ==>
          CoversPath(snapshot.grants, key, snapshot.targetPath.value))
  }

  /** The position of the first listed key that admits. */
  function FirstAdmitting(r: Requirement, scopeNodeId: Option<string>, snapshot: Snapshot,
                          keys: seq<PermissionKey>): (i: nat)
    ensures i <= |keys|
    ensures i < |keys| ==> Admits(r, scopeNodeId, snapshot, keys[i])
    ensures forall j :: 0 <= j < i ==> !Admits(r, scopeNodeId, snapshot, keys[j])
  {
    if keys == [] || Admits(r, scopeNodeId, snapshot, keys[0]) then 0
    else 1 + FirstAdmitting(r, scopeNodeId, snapshot, keys[1..])
  }

  /** Filtering for held keys and then looking for coverage finds the first key that admits. */
  lemma {:induction false} FoundIsFirst(r: Requirement, scopeNodeId: Option<string>, snapshot: Snapshot,
                                        keys: seq<PermissionKey>)
    requires r.scopeFrom && scopeNodeId.None? ==> r.scopeOptional
    ensures var held, i := Held(snapshot.grants, keys), FirstAdmitting(r, scopeNodeId, snapshot, keys);
            if r.scopeFrom && scopeNodeId.Some? && snapshot.targetPath.Some? then
              FirstCovering(snapshot.grants, held, snapshot.targetPath.value) ==
              if i < |keys| then Some(keys[i]) else None
            else
              (held == [] <==> i == |keys|) && (held != [] ==> held[0] == keys[i])
  {
    if keys != [] {
      FoundIsFirst(r, scopeNodeId, snapshot, keys[1..]);
      var rest := Held(snapshot.grants, keys[1..]);
      if HoldsPermission(snapshot.grants, keys[0]) {
        assert Held(snapshot.grants, keys) == [keys[0]] + rest;
        assert ([keys[0]] + rest)[1..] == rest;
      } else {
        assert Held(snapshot.grants, keys) == rest;
      }
    }
  }

  /**
   * The whole rule. Allowed exactly when some listed key admits, naming the first such key alone; denied for
   * permission exactly when none is held, naming all of them; otherwise denied for scope, naming the held ones.
   */
  lemma DecideMeaning(r: Requirement, scopeNodeId: Option<string>, snapshot: Snapshot)
    ensures var d := Decide(r, scopeNodeId, snapshot);
            && (d.outcome == Allowed <==> exists key :: key in r.permissions && Admits(r, scopeNodeId, snapshot, key))
            && (d.outcome == Allowed ==>
                  var i := FirstAdmitting(r, scopeNodeId, snapshot, r.permissions);
                  i < |r.permissions| && d.permissions == [r.permissions[i]])
            && d.scopeNodeId == (if r.scopeFrom then scopeNodeId else None)
            && (d.outcome == PermissionDenied <==>
                  forall key | key in r.permissions :: !HoldsPermission(snapshot.grants, key))
            && (d.outcome == PermissionDenied ==> d.permissions == r.permissions)
            && (d.outcome == ScopeDenied ==>
                  d.permissions != []
                  && forall key :: key in d.permissions <==>
                         key in r.permissions && HoldsPermission(snapshot.grants, key))
  {
    HeldMeaning(snapshot.grants, r.permissions);
    if r.scopeFrom && scopeNodeId.None? ==> r.scopeOptional {
      FoundIsFirst(r, scopeNodeId, snapshot, r.permissions);
    }
    var held := Held(snapshot.grants, r.permissions);
    if held != [] {
      assert held[0] in r.permissions;
    }
    if snapshot.targetPath.Some? {
      FirstCoveringMeaning(snapshot.grants, held, snapshot.targetPath.value);
    }
  }

  /** A route that lists several keys allows exactly when it would allow with one of them alone. */
  lemma SeveralKeysAreAnyKey(r: Requirement, scopeNodeId: Option<string>, snapshot: Snapshot)
    ensures Decide(r, scopeNodeId, snapshot).outcome == Allowed <==>
            exists key :: key in r.permissions &&
                          Decide(r.(permissions := [key]), scopeNodeId, snapshot).outcome == Allowed
  {
    DecideMeaning(r, scopeNodeId, snapshot);
    forall key ensures Decide(r.(permissions := [key]), scopeNodeId, snapshot).outcome == Allowed <==>
                       Admits(r, scopeNodeId, snapshot, key)
    {
      DecideMeaning(r.(permissions := [key]), scopeNodeId, snapshot);
      assert key in [key];
    }
  }

  /** The two grant sets list the same permissions, and each permission covers the same nodes. */
  ghost predicate EquivalentGrants(g: ResolvedGrants, h: ResolvedGrants) {
    && g.permissions == h.permissions
    && forall p, target :: AnyCovers(AllowedPathsFor(g, p), target) <==> AnyCovers(AllowedPathsFor(h, p), target)
  }

  lemma {:induction false} FirstCoveringSame(g: ResolvedGrants, h: ResolvedGrants,
                                             held: seq<PermissionKey>, target: ScopePath)
    requires EquivalentGrants(g, h)
    ensures FirstCovering(g, held, target) == FirstCovering(h, held, target)
  {
    if held != [] {
      assert AnyCovers(AllowedPathsFor(g, held[0]), target) <==> AnyCovers(AllowedPathsFor(h, held[0]), target);
      FirstCoveringSame(g, h, held[1..], target);
    }
  }

  lemma {:induction false} HeldSame(g: ResolvedGrants, h: ResolvedGrants, permissions: seq<PermissionKey>)
    requires g.permissions == h.permissions
    ensures Held(g, permissions) == Held(h, permissions)
  {
    if permissions != [] {
      HeldSame(g, h, permissions[1..]);
    }
  }

  function PathSet(paths: seq<ScopePath>): set<ScopePath> {
    set path | path in paths
  }

  /** `h` lists, for each permission, its paths in `g` after dropping only some that lie within another. */
  predicate DropsRedundant(g: ResolvedGrants, h: ResolvedGrants) {
    && g.permissions == h.permissions && g.scopes.Keys == h.scopes.Keys
    && forall p :: p in g.scopes ==>
         Reduced(PathSet(g.scopes[p])) <= PathSet(h.scopes[p]) <= PathSet(g.scopes[p])
  }

  /** Minimization is invisible: no point check, no decision and no row narrowing can tell. */
  lemma MinimizationIsInvisible(g: ResolvedGrants, h: ResolvedGrants, r: Requirement,
                                scopeNodeId: Option<string>, target: Option<ScopePath>)
    requires DropsRedundant(g, h)
    ensures EquivalentGrants(g, h)
    ensures Decide(r, scopeNodeId, Snapshot(g, target)) == Decide(r, scopeNodeId, Snapshot(h, target))
    ensures forall p, t :: CoversPath(g, p, t) <==> CoversPath(h, p, t)
  {
    forall p, t ensures AnyCovers(AllowedPathsFor(g, p), t) <==> AnyCovers(AllowedPathsFor(h, p), t)
                ensures CoversPath(g, p, t) <==> CoversPath(h, p, t)
    {
      if p in g.scopes {
        var gs, hs := PathSet(g.scopes[p]), PathSet(h.scopes[p]);
        DroppingKeepsCoverage(gs, hs);
        assert Covered(gs, t) <==> Covered(hs, t);
        SetCoverage(g.scopes[p], t);
        SetCoverage(h.scopes[p], t);
      }
    }
    HeldSame(g, h, r.permissions);
    if target.Some? {
      FirstCoveringSame(g, h, Held(g, r.permissions), target.value);
    }
  }

  lemma SetCoverage(paths: seq<ScopePath>, target: ScopePath)
    ensures AnyCovers(paths, target) <==> Covered(PathSet(paths), target)
  {
    if AnyCovers(paths, target) {
      var path :| path in paths && PathIsWithin(target, path);
      assert path in PathSet(paths);
    }
  }
}
