/** The role permission picker, `apps/admin-web/src/lib/role-permissions.ts`: merge, grouping, order and save. */
module RolePicker {
  datatype Permission = Permission(
    id: string, applicationId: string, applicationKey: string, applicationName: string,
    applicationEnabled: bool, isActive: bool)

  datatype Inert = Live | ApplicationDisabled | PermissionRetired

  datatype Row = Row(permission: Permission, selected: bool, inert: Inert)

  datatype Group = Group(applicationId: string, applicationKey: string, applicationName: string,
      inert: bool, rows: seq<Row>)

  function InertReason(p: Permission): Inert {
    if !p.applicationEnabled then ApplicationDisabled else if !p.isActive then PermissionRetired else Live
  }

  function Ids(ps: seq<Permission>): set<string> {
    set p | p in ps :: p.id
  }

  ghost predicate DistinctIds(ps: seq<Permission>) {
    forall i, j :: 0 <= i < j < |ps| ==> ps[i].id != ps[j].id
  }

  // ---- the two maps, in insertion order -------------------------------------------------------

  function IndexOfId(entries: seq<Permission>, id: string): (i: nat)
    ensures i <= |entries|
    ensures i < |entries| ==> entries[i].id == id
    ensures forall k :: 0 <= k < i ==> entries[k].id != id
  {
    if entries == [] || entries[0].id == id then 0 else 1 + IndexOfId(entries[1..], id)
  }

  /** `Map.set`: an existing key keeps its place and takes the new value. */
  function Put(entries: seq<Permission>, p: Permission): seq<Permission> {
    var i := IndexOfId(entries, p.id);
    if i < |entries| then entries[i := p] else entries + [p]
  }

  function Catalogued(catalog: seq<Permission>): seq<Permission> {
    if catalog == [] then []
    else Put(Catalogued(catalog[..|catalog| - 1]), catalog[|catalog| - 1])
  }

  function Filled(base: seq<Permission>, mapped: seq<Permission>): seq<Permission> {
    if mapped == [] then base
    else
      var before, p := Filled(base, mapped[..|mapped| - 1]), mapped[|mapped| - 1];
      if IndexOfId(before, p.id) < |before| then before else before + [p]
  }

  function RowFor(p: Permission, selected: set<string>): Row {
    Row(p, p.id in selected, InertReason(p))
  }

  function IndexOfApp(groups: seq<Group>, app: string): (i: nat)
    ensures i <= |groups|
    ensures i < |groups| ==> groups[i].applicationId == app
    ensures forall k :: 0 <= k < i ==> groups[k].applicationId != app
  {
    if groups == [] || groups[0].applicationId == app then 0 else 1 + IndexOfApp(groups[1..], app)
  }

  /** One row more: into the group of its application, which is opened where there is none. */
  function Place(groups: seq<Group>, p: Permission, selected: set<string>): seq<Group> {
    var i := IndexOfApp(groups, p.applicationId);
    var group :=
      if i < |groups| then groups[i] else Group(p.applicationId, p.applicationKey, p.applicationName, true, []);
    var row := RowFor(p, selected);
    var grown := group.(rows := group.rows + [row], inert := group.inert && row.inert != Live);
    if i < |groups| then groups[i := grown] else groups + [grown]
  }

  function Placed(byId: seq<Permission>, selected: set<string>): seq<Group> {
    if byId == [] then []
    else Place(Placed(byId[..|byId| - 1], selected), byId[|byId| - 1], selected)
  }

  /** A locale's collation of names, as a rank: any total preorder of strings has one. */
  type Collation = string -> real

  predicate Precedes(a: Group, b: Group, collate: Collation) {
    if a.inert == b.inert then collate(a.applicationName) <= collate(b.applicationName) else b.inert
  }

  function Insert(sorted: seq<Group>, g: Group, collate: Collation): seq<Group> {
    if sorted == [] then [g]
    else if Precedes(sorted[|sorted| - 1], g, collate) then sorted + [g]
    else Insert(sorted[..|sorted| - 1], g, collate) + [sorted[|sorted| - 1]]
  }

  /** The engine's stable sort under the picker's comparator. */
  function Sorted(groups: seq<Group>, collate: Collation): seq<Group> {
    if groups == [] then []
    else Insert(Sorted(groups[..|groups| - 1], collate), groups[|groups| - 1], collate)
  }

  function Picker(catalog: seq<Permission>, mapped: seq<Permission>, collate: Collation): seq<Group> {
    Sorted(Placed(Filled(Catalogued(catalog), mapped), Ids(mapped)), collate)
  }

  /** The catalog first, so that its order wins; the role's own rows fill in what it cannot offer. */
  method MergeById(catalog: seq<Permission>, mapped: seq<Permission>) returns (byId: seq<Permission>)
    ensures byId == Filled(Catalogued(catalog), mapped)
  {
    byId := [];
    for i := 0 to |catalog|
      invariant byId == Catalogued(catalog[..i])
    {
      assert catalog[..i + 1][..i] == catalog[..i];
      byId := Put(byId, catalog[i]);
    }
    assert catalog[..|catalog|] == catalog;
    for i := 0 to |mapped|
      invariant byId == Filled(Catalogued(catalog), mapped[..i])
    {
      assert mapped[..i + 1][..i] == mapped[..i];
      if IndexOfId(byId, mapped[i].id) == |byId| {
        byId := byId + [mapped[i]];
      }
    }
    assert mapped[..|mapped|] == mapped;
  }

  method GroupRows(byId: seq<Permission>, selected: set<string>) returns (groups: seq<Group>)
    ensures groups == Placed(byId, selected)
  {
    groups := [];
    for i := 0 to |byId|
      invariant groups == Placed(byId[..i], selected)
    {
      assert byId[..i + 1][..i] == byId[..i];
      ghost var before := groups;
      var p := byId[i];
      var at := IndexOfApp(groups, p.applicationId);
      var group :=
        if at < |groups| then groups[at] else Group(p.applicationId, p.applicationKey, p.applicationName, true, []);
      var inert := InertReason(p);
      group := group.(rows := group.rows + [Row(p, p.id in selected, inert)]);
      if inert == Live {
        group := group.(inert := false);
      }
      groups := if at < |groups| then groups[at := group] else groups + [group];
      assert groups == Place(before, p, selected);
    }
    assert byId[..|byId|] == byId;
  }

  method BuildPicker(catalog: seq<Permission>, mapped: seq<Permission>, collate: Collation) returns (picker: seq<Group>)
    ensures picker == Picker(catalog, mapped, collate)
  {
    var selected := Ids(mapped);
    var byId := MergeById(catalog, mapped);
    var groups := GroupRows(byId, selected);
    picker := Sorted(groups, collate);
  }

  function SelectionChanged(mapped: seq<Permission>, chosen: set<string>): bool {
    |mapped| != |chosen| || exists p :: p in mapped && p.id !in chosen
  }

  // ---- one entry for each id ------------------------------------------------------------------

  /** The catalog's word wins, the last one where it repeats itself; then the role's own first. */
  ghost predicate IsEntryFor(p: Permission, catalog: seq<Permission>, mapped: seq<Permission>) {
    || (exists i :: 0 <= i < |catalog| && catalog[i] == p && forall j :: i < j < |catalog| ==> catalog[j].id != p.id)
    || (p.id !in Ids(catalog)
        && exists i :: 0 <= i < |mapped| && mapped[i] == p && forall j :: 0 <= j < i ==> mapped[j].id != p.id)
  }

  lemma OlderEntryStays(q: Permission, catalog: seq<Permission>, p: Permission)
    requires IsEntryFor(q, catalog, []) && q.id != p.id
    ensures IsEntryFor(q, catalog + [p], [])
  {
    var i :| 0 <= i < |catalog| && catalog[i] == q && forall j :: i < j < |catalog| ==> catalog[j].id != q.id;
    assert (catalog + [p])[i] == q;
  }

  lemma {:induction false} CataloguedDistinct(catalog: seq<Permission>)
    ensures DistinctIds(Catalogued(catalog))
  {
    if catalog != [] {
      var n := |catalog| - 1;
      CataloguedDistinct(catalog[..n]);
      PutKeepsDistinct(Catalogued(catalog[..n]), catalog[n]);
    }
  }

  lemma {:induction false} CataloguedIds(catalog: seq<Permission>)
    ensures Ids(Catalogued(catalog)) == Ids(catalog)
  {
    if catalog != [] {
      var n := |catalog| - 1;
      var before, p := Catalogued(catalog[..n]), catalog[n];
      CataloguedIds(catalog[..n]);
      assert catalog == catalog[..n] + [p];
      IdsOfMore(catalog[..n], p);
      forall id ensures id in Ids(Put(before, p)) <==> id in Ids(catalog) {
        PutIds(before, p, id);
      }
    }
  }

  lemma {:induction false} CataloguedEntries(catalog: seq<Permission>)
    ensures forall p :: p in Catalogued(catalog) ==> IsEntryFor(p, catalog, [])
  {
    if catalog != [] {
      var n := |catalog| - 1;
      var before, p := Catalogued(catalog[..n]), catalog[n];
      CataloguedEntries(catalog[..n]);
      CataloguedDistinct(catalog[..n]);
      assert catalog == catalog[..n] + [p];
      forall q | q in Put(before, p) ensures IsEntryFor(q, catalog, []) {
        if q == p {
          NewestEntry(catalog[..n], p);
        } else {
          PutOther(before, p, q);
          OlderEntryStays(q, catalog[..n], p);
        }
      }
    }
  }

  lemma PutKeepsDistinct(entries: seq<Permission>, p: Permission)
    requires DistinctIds(entries)
    ensures DistinctIds(Put(entries, p))
  {
  }

  /** What is there beside the entry just put was there before, under another id. */
  lemma PutOther(entries: seq<Permission>, p: Permission, q: Permission)
    requires DistinctIds(entries) && q in Put(entries, p) && q != p
    ensures q in entries && q.id != p.id
  {
    var k :| 0 <= k < |Put(entries, p)| && Put(entries, p)[k] == q;
    assert k < |entries| && entries[k] == q;
  }

  lemma NewestEntry(catalog: seq<Permission>, p: Permission)
    ensures IsEntryFor(p, catalog + [p], [])
  {
    assert (catalog + [p])[|catalog|] == p;
  }

  lemma PutIds(entries: seq<Permission>, p: Permission, id: string)
    ensures id in Ids(Put(entries, p)) <==> id in Ids(entries) + {p.id}
  {
    var i, after := IndexOfId(entries, p.id), Put(entries, p);
    assert after[i] == p;
    if id != p.id {
      if id in Ids(entries) {
        var k :| 0 <= k < |entries| && entries[k].id == id;
        assert after[k] == entries[k];
      }
      if id in Ids(after) {
        var k :| 0 <= k < |after| && after[k].id == id;
        assert after[k] == entries[k];
      }
    }
  }

  lemma IdsOfMore(ps: seq<Permission>, p: Permission)
    ensures Ids(ps + [p]) == Ids(ps) + {p.id}
  {
    forall id ensures id in Ids(ps + [p]) <==> id in Ids(ps) + {p.id} {
      if id == p.id {
        assert (ps + [p])[|ps|].id == id;
      } else if id in Ids(ps) {
        var k :| 0 <= k < |ps| && ps[k].id == id;
        assert (ps + [p])[k].id == id;
      }
    }
  }

  lemma AppendDistinct(ps: seq<Permission>, p: Permission)
    ensures DistinctIds(ps + [p]) <==> DistinctIds(ps) && p.id !in Ids(ps)
  {
    if p.id in Ids(ps) {
      var k :| 0 <= k < |ps| && ps[k].id == p.id;
      assert (ps + [p])[k].id == (ps + [p])[|ps|].id;
    }
    forall i, j | DistinctIds(ps + [p]) && 0 <= i < j < |ps| ensures ps[i].id != ps[j].id {
      assert (ps + [p])[i].id != (ps + [p])[j].id;
    }
  }

  lemma {:induction false} FilledIds(base: seq<Permission>, mapped: seq<Permission>)
    requires DistinctIds(base)
    ensures DistinctIds(Filled(base, mapped))
    ensures Ids(Filled(base, mapped)) == Ids(base) + Ids(mapped)
    decreases |mapped|
  {
    if mapped != [] {
      var n := |mapped| - 1;
      var before, p := Filled(base, mapped[..n]), mapped[n];
      FilledIds(base, mapped[..n]);
      assert mapped == mapped[..n] + [p];
      IdsOfMore(mapped[..n], p);
      var i := IndexOfId(before, p.id);
      if i < |before| {
        assert before[i].id in Ids(before);
      } else {
        IdsOfMore(before, p);
        AppendDistinct(before, p);
      }
    }
  }

  lemma EntryStays(p: Permission, catalog: seq<Permission>, mapped: seq<Permission>, next: Permission)
    requires IsEntryFor(p, catalog, mapped)
    ensures IsEntryFor(p, catalog, mapped + [next])
  {
    if p.id !in Ids(catalog) {
      var i :| 0 <= i < |mapped| && mapped[i] == p && forall j :: 0 <= j < i ==> mapped[j].id != p.id;
      assert (mapped + [next])[i] == p;
    }
  }

  lemma EntryAppears(p: Permission, catalog: seq<Permission>, mapped: seq<Permission>)
    requires p.id !in Ids(catalog) + Ids(mapped)
    ensures IsEntryFor(p, catalog, mapped + [p])
  {
    assert (mapped + [p])[|mapped|] == p;
  }

  lemma {:induction false} FilledEntries(catalog: seq<Permission>, mapped: seq<Permission>)
    ensures DistinctIds(Filled(Catalogued(catalog), mapped))
    ensures Ids(Filled(Catalogued(catalog), mapped)) == Ids(catalog) + Ids(mapped)
    ensures forall p :: p in Filled(Catalogued(catalog), mapped) ==> IsEntryFor(p, catalog, mapped)
    decreases |mapped|
  {
    CataloguedEntries(catalog);
    CataloguedDistinct(catalog);
    CataloguedIds(catalog);
    FilledIds(Catalogued(catalog), mapped);
    if mapped == [] {
    } else {
      var n := |mapped| - 1;
      var before, p := Filled(Catalogued(catalog), mapped[..n]), mapped[n];
      FilledEntries(catalog, mapped[..n]);
      assert mapped == mapped[..n] + [p];
      forall q | q in Filled(Catalogued(catalog), mapped) ensures IsEntryFor(q, catalog, mapped) {
        if q in before {
          EntryStays(q, catalog, mapped[..n], p);
        } else {
          assert q == p && IndexOfId(before, p.id) == |before|;
          EntryAppears(p, catalog, mapped[..n]);
        }
      }
    }
  }

  // ---- one group for each application ---------------------------------------------------------

  /** The rows of one application, in the order of the entries. */
  function RowsOf(byId: seq<Permission>, app: string, selected: set<string>): seq<Row> {
    if byId == [] then []
    else
      var p := byId[|byId| - 1];
      RowsOf(byId[..|byId| - 1], app, selected) + if p.applicationId == app then [RowFor(p, selected)] else []
  }

  /** A group of `byId`: exactly its application's rows, titled by the first, inert when all of them are. */
  ghost predicate IsGroupOf(g: Group, byId: seq<Permission>, selected: set<string>) {
    && g.rows == RowsOf(byId, g.applicationId, selected)
    && g.rows != []
    && g.applicationKey == g.rows[0].permission.applicationKey
    && g.applicationName == g.rows[0].permission.applicationName
    && (g.inert <==> forall r :: r in g.rows ==> r.inert != Live)
  }

  ghost predicate DistinctApps(groups: seq<Group>) {
    forall i, j :: 0 <= i < j < |groups| ==> groups[i].applicationId != groups[j].applicationId
  }

  ghost predicate Covers(groups: seq<Group>, byId: seq<Permission>) {
    forall p :: p in byId ==> exists g :: g in groups && g.applicationId == p.applicationId
  }

  /** A further entry leaves another application's group as it was. */
  lemma GroupStays(g: Group, byId: seq<Permission>, p: Permission, selected: set<string>)
    requires IsGroupOf(g, byId, selected) && p.applicationId != g.applicationId
    ensures IsGroupOf(g, byId + [p], selected)
  {
    assert (byId + [p])[..|byId|] == byId;
  }

  /** A further entry joins its own application's group, the first one opens it. */
  lemma GroupGrows(g: Group, byId: seq<Permission>, p: Permission, selected: set<string>)
    requires p.applicationId == g.applicationId
    requires IsGroupOf(g, byId, selected)
             || (RowsOf(byId, p.applicationId, selected) == []
                 && g == Group(p.applicationId, p.applicationKey, p.applicationName, true, []))
    ensures var row := RowFor(p, selected);
            IsGroupOf(g.(rows := g.rows + [row], inert := g.inert && row.inert != Live), byId + [p], selected)
  {
    var row := RowFor(p, selected);
    assert (byId + [p])[..|byId|] == byId;
    assert RowsOf(byId + [p], g.applicationId, selected) == g.rows + [row];
    assert (g.rows + [row])[|g.rows|] == row;
    forall r ensures r in g.rows + [row] <==> r in g.rows || r == row {
    }
  }

  lemma CoversMore(before: seq<Group>, byId: seq<Permission>, p: Permission, selected: set<string>)
    requires Covers(before, byId)
    ensures Covers(Place(before, p, selected), byId + [p])
  {
    var groups, i := Place(before, p, selected), IndexOfApp(before, p.applicationId);
    forall q | q in byId + [p] ensures exists g :: g in groups && g.applicationId == q.applicationId {
      if q.applicationId == p.applicationId {
        assert groups[i] in groups;
      } else {
        var k :| 0 <= k < |before| && before[k].applicationId == q.applicationId;
        assert groups[k] in groups;
      }
    }
  }

  lemma PlaceKeepsDistinct(before: seq<Group>, p: Permission, selected: set<string>)
    requires DistinctApps(before)
    ensures DistinctApps(Place(before, p, selected))
  {
  }

  lemma PlaceKeepsGroup(before: seq<Group>, byId: seq<Permission>, p: Permission, selected: set<string>, k: int)
    requires DistinctApps(before) && Covers(before, byId) && 0 <= k < |Place(before, p, selected)|
    requires k < |before| ==> IsGroupOf(before[k], byId, selected)
    ensures IsGroupOf(Place(before, p, selected)[k], byId + [p], selected)
  {
    var i := IndexOfApp(before, p.applicationId);
    if k != i {
      GroupStays(before[k], byId, p, selected);
    } else if i < |before| {
      GroupGrows(before[i], byId, p, selected);
    } else {
      NoRows(byId, p.applicationId, selected, before);
      GroupGrows(Group(p.applicationId, p.applicationKey, p.applicationName, true, []), byId, p, selected);
    }
  }

  lemma {:induction false} PlacedGroups(byId: seq<Permission>, selected: set<string>)
    ensures DistinctApps(Placed(byId, selected))
    ensures Covers(Placed(byId, selected), byId)
    ensures forall k :: 0 <= k < |Placed(byId, selected)| ==> IsGroupOf(Placed(byId, selected)[k], byId, selected)
  {
    if byId != [] {
      var n := |byId| - 1;
      var before, p := Placed(byId[..n], selected), byId[n];
      PlacedGroups(byId[..n], selected);
      assert byId == byId[..n] + [p];
      CoversMore(before, byId[..n], p, selected);
      var groups := Placed(byId, selected);
      assert groups == Place(before, p, selected);
      forall k | 0 <= k < |groups| ensures IsGroupOf(groups[k], byId, selected) {
        PlaceKeepsGroup(before, byId[..n], p, selected, k);
      }
      PlaceKeepsDistinct(before, p, selected);
    }
  }

  /** An application no group stands for has no rows yet. */
  lemma {:induction false} NoRows(byId: seq<Permission>, app: string, selected: set<string>, groups: seq<Group>)
    requires Covers(groups, byId) && forall g :: g in groups ==> g.applicationId != app
    ensures RowsOf(byId, app, selected) == []
  {
    if byId != [] {
      assert byId[|byId| - 1] in byId;
      NoRows(byId[..|byId| - 1], app, selected, groups);
    }
  }

  /** Row by row: the entries of an application and its rows stand for each other, each once. */
  lemma {:induction false} RowsOfEntries(byId: seq<Permission>, app: string, selected: set<string>)
    ensures forall r :: r in RowsOf(byId, app, selected) ==>
              r.permission in byId && r.permission.applicationId == app && r == RowFor(r.permission, selected)
    ensures forall p :: p in byId && p.applicationId == app ==> RowFor(p, selected) in RowsOf(byId, app, selected)
    ensures DistinctIds(byId) ==> forall a, b :: 0 <= a < b < |RowsOf(byId, app, selected)| ==>
              RowsOf(byId, app, selected)[a].permission.id != RowsOf(byId, app, selected)[b].permission.id
  {
    if byId != [] {
      var n := |byId| - 1;
      var p := byId[n];
      assert byId == byId[..n] + [p];
      RowsOfEntries(byId[..n], app, selected);
      var before := RowsOf(byId[..n], app, selected);
      if p.applicationId == app {
        assert RowsOf(byId, app, selected) == before + [RowFor(p, selected)];
        assert RowFor(p, selected) in before + [RowFor(p, selected)];
      } else {
        assert RowsOf(byId, app, selected) == before;
      }
    }
  }

  // ---- the order ------------------------------------------------------------------------------

  ghost predicate InOrder(groups: seq<Group>, collate: Collation) {
    forall i, j :: 0 <= i < j < |groups| ==> Precedes(groups[i], groups[j], collate)
  }

  /** The groups that tie with `like` under the comparator, in order. */
  function Ties(groups: seq<Group>, like: Group, collate: Collation): seq<Group> {
    if groups == [] then []
    else
      var g := groups[|groups| - 1];
      Ties(groups[..|groups| - 1], like, collate)
      + if Precedes(g, like, collate) && Precedes(like, g, collate) then [g] else []
  }

  lemma {:induction false} InsertPermutes(sorted: seq<Group>, g: Group, collate: Collation)
    ensures multiset(Insert(sorted, g, collate)) == multiset(sorted) + multiset{g}
  {
    if sorted != [] && !Precedes(sorted[|sorted| - 1], g, collate) {
      var n := |sorted| - 1;
      assert sorted == sorted[..n] + [sorted[n]];
      InsertPermutes(sorted[..n], g, collate);
    }
  }

  lemma AppendInOrder(sorted: seq<Group>, last: Group, collate: Collation)
    requires InOrder(sorted, collate) && forall g :: g in sorted ==> Precedes(g, last, collate)
    ensures InOrder(sorted + [last], collate)
  {
  }

  lemma {:induction false} InsertSorts(sorted: seq<Group>, g: Group, collate: Collation)
    requires InOrder(sorted, collate)
    ensures InOrder(Insert(sorted, g, collate), collate)
  {
    if sorted != [] {
      var n := |sorted| - 1;
      if Precedes(sorted[n], g, collate) {
        forall k | 0 <= k < |sorted| ensures Precedes(sorted[k], g, collate) {
          assert k < n ==> Precedes(sorted[k], sorted[n], collate);
        }
        AppendInOrder(sorted, g, collate);
      } else {
        var inner := Insert(sorted[..n], g, collate);
        InsertSorts(sorted[..n], g, collate);
        InsertPermutes(sorted[..n], g, collate);
        forall h | h in inner ensures Precedes(h, sorted[n], collate) {
          assert h in multiset(inner);
          if h != g {
            var k :| 0 <= k < n && sorted[k] == h;
          }
        }
        AppendInOrder(inner, sorted[n], collate);
      }
    }
  }

  lemma TiesOfMore(groups: seq<Group>, g: Group, like: Group, collate: Collation)
    ensures Ties(groups + [g], like, collate) ==
            Ties(groups, like, collate) + if Precedes(g, like, collate) && Precedes(like, g, collate) then [g] else []
  {
    assert (groups + [g])[..|groups|] == groups;
  }

  /** Groups out of order do not both tie with a third, so swapping them moves no tie. */
  lemma TiesOfTwo(groups: seq<Group>, g: Group, last: Group, like: Group, collate: Collation)
    requires !Precedes(last, g, collate)
    ensures Ties(groups + [g] + [last], like, collate) == Ties(groups + [last] + [g], like, collate)
  {
    TiesOfMore(groups + [g], last, like, collate);
    TiesOfMore(groups, g, like, collate);
    TiesOfMore(groups + [last], g, like, collate);
    TiesOfMore(groups, last, like, collate);
  }

  lemma {:induction false} InsertKeepsTies(sorted: seq<Group>, g: Group, collate: Collation, like: Group)
    ensures Ties(Insert(sorted, g, collate), like, collate) == Ties(sorted + [g], like, collate)
  {
    if sorted == [] {
      assert sorted + [g] == [g];
    } else if !Precedes(sorted[|sorted| - 1], g, collate) {
      var n := |sorted| - 1;
      var init, last := sorted[..n], sorted[n];
      assert sorted == init + [last];
      InsertKeepsTies(init, g, collate, like);
      TiesOfTwo(init, g, last, like, collate);
      TiesOfMore(Insert(init, g, collate), last, like, collate);
      TiesOfMore(init + [g], last, like, collate);
    }
  }

  /** The sort is a stable permutation into order. */
  lemma {:induction false} SortIsStable(groups: seq<Group>, collate: Collation, like: Group)
    ensures var sorted := Sorted(groups, collate);
            && InOrder(sorted, collate)
            && multiset(sorted) == multiset(groups)
            && Ties(sorted, like, collate) == Ties(groups, like, collate)
  {
    if groups != [] {
      var n := |groups| - 1;
      assert groups == groups[..n] + [groups[n]];
      SortIsStable(groups[..n], collate, like);
      InsertSorts(Sorted(groups[..n], collate), groups[n], collate);
      InsertPermutes(Sorted(groups[..n], collate), groups[n], collate);
      InsertKeepsTies(Sorted(groups[..n], collate), groups[n], collate, like);
      TiesOfMore(Sorted(groups[..n], collate), groups[n], like, collate);
      TiesOfMore(groups[..n], groups[n], like, collate);
    }
  }

  lemma StandsOnce(groups: seq<Group>, x: int)
    requires DistinctApps(groups) && 0 <= x < |groups|
    ensures multiset(groups)[groups[x]] == 1
  {
    assert groups == groups[..x] + [groups[x]] + groups[x + 1..];
    assert groups[x] !in groups[..x] && groups[x] !in groups[x + 1..];
  }

  lemma StandsTwice(groups: seq<Group>, i: int, j: int)
    requires 0 <= i < j < |groups| && groups[i] == groups[j]
    ensures multiset(groups)[groups[i]] >= 2
  {
    assert groups == groups[..i] + [groups[i]] + groups[i + 1..j] + [groups[j]] + groups[j + 1..];
  }

  /** Distinctness survives a permutation. */
  lemma PermutedApps(groups: seq<Group>, sorted: seq<Group>)
    requires DistinctApps(groups) && multiset(groups) == multiset(sorted)
    ensures DistinctApps(sorted)
  {
    forall i, j | 0 <= i < j < |sorted| && sorted[i].applicationId == sorted[j].applicationId ensures false {
      assert sorted[i] in multiset(groups) && sorted[j] in multiset(groups);
      var x :| 0 <= x < |groups| && groups[x] == sorted[i];
      StandsOnce(groups, x);
      StandsTwice(sorted, i, j);
    }
  }

  // ---- what the picker shows, and what a save sends -------------------------------------------

  predicate At(picker: seq<Group>, g: int, r: int) {
    0 <= g < |picker| && 0 <= r < |picker[g].rows|
  }

  function RowAt(picker: seq<Group>, g: int, r: int): Row
    requires At(picker, g, r)
  {
    picker[g].rows[r]
  }

  lemma PermutedGroups(groups: seq<Group>, sorted: seq<Group>, byId: seq<Permission>, selected: set<string>)
    requires multiset(groups) == multiset(sorted) && Covers(groups, byId)
    requires forall k :: 0 <= k < |groups| ==> IsGroupOf(groups[k], byId, selected)
    ensures Covers(sorted, byId)
    ensures forall k :: 0 <= k < |sorted| ==> IsGroupOf(sorted[k], byId, selected)
  {
    forall k | 0 <= k < |sorted| ensures IsGroupOf(sorted[k], byId, selected) {
      assert sorted[k] in multiset(groups);
    }
    forall p | p in byId ensures exists g :: g in sorted && g.applicationId == p.applicationId {
      var g :| g in groups && g.applicationId == p.applicationId;
      assert g in multiset(sorted);
    }
  }

  /** The groups before sorting are, as a set, the groups of the picker. */
  lemma PickerGroups(catalog: seq<Permission>, mapped: seq<Permission>, collate: Collation)
    ensures var picker, byId := Picker(catalog, mapped, collate), Filled(Catalogued(catalog), mapped);
            && DistinctApps(picker)
            && Covers(picker, byId)
            && forall g :: 0 <= g < |picker| ==> IsGroupOf(picker[g], byId, Ids(mapped))
  {
    var byId := Filled(Catalogued(catalog), mapped);
    var groups, picker := Placed(byId, Ids(mapped)), Picker(catalog, mapped, collate);
    PlacedGroups(byId, Ids(mapped));
    SortIsStable(groups, collate, Group("", "", "", true, []));
    PermutedApps(groups, picker);
    PermutedGroups(groups, picker, byId, Ids(mapped));
  }

  /** Every row stands for an offered or mapped permission, under its own application, checked when mapped. */
  lemma RowsAreTrue(catalog: seq<Permission>, mapped: seq<Permission>, collate: Collation, g: int, r: int)
    requires At(Picker(catalog, mapped, collate), g, r)
    ensures var picker := Picker(catalog, mapped, collate);
            var row := RowAt(picker, g, r);
            && row.permission.id in Ids(catalog) + Ids(mapped)
            && IsEntryFor(row.permission, catalog, mapped)
            && row.permission.applicationId == picker[g].applicationId
            && (row.selected <==> row.permission.id in Ids(mapped))
            && row.inert == (if !row.permission.applicationEnabled then ApplicationDisabled
                             else if !row.permission.isActive then PermissionRetired else Live)
  {
    var picker, byId := Picker(catalog, mapped, collate), Filled(Catalogued(catalog), mapped);
    PickerGroups(catalog, mapped, collate);
    FilledEntries(catalog, mapped);
    assert IsGroupOf(picker[g], byId, Ids(mapped));
    RowsOfEntries(byId, picker[g].applicationId, Ids(mapped));
    assert RowAt(picker, g, r) in RowsOf(byId, picker[g].applicationId, Ids(mapped));
  }

  lemma RowIsEntry(g: Group, byId: seq<Permission>, selected: set<string>, r: int)
    requires IsGroupOf(g, byId, selected) && 0 <= r < |g.rows|
    ensures g.rows[r].permission in byId && g.rows[r].permission.applicationId == g.applicationId
  {
    RowsOfEntries(byId, g.applicationId, selected);
    assert g.rows[r] in RowsOf(byId, g.applicationId, selected);
  }

  /** No id has two rows. */
  lemma RowIsUnique(catalog: seq<Permission>, mapped: seq<Permission>, collate: Collation,
                      g: int, r: int, h: int, s: int)
    requires At(Picker(catalog, mapped, collate), g, r) && At(Picker(catalog, mapped, collate), h, s)
    requires RowAt(Picker(catalog, mapped, collate), g, r).permission.id ==
             RowAt(Picker(catalog, mapped, collate), h, s).permission.id
    ensures g == h && r == s
  {
    var picker, byId := Picker(catalog, mapped, collate), Filled(Catalogued(catalog), mapped);
    PickerGroups(catalog, mapped, collate);
    FilledEntries(catalog, mapped);
    var a, b := RowAt(picker, g, r).permission, RowAt(picker, h, s).permission;
    RowIsEntry(picker[g], byId, Ids(mapped), r);
    RowIsEntry(picker[h], byId, Ids(mapped), s);
    assert a == b;
    assert g == h;
    RowsOfEntries(byId, picker[g].applicationId, Ids(mapped));
  }

  ghost predicate Shown(picker: seq<Group>, id: string) {
    exists g, r :: At(picker, g, r) && RowAt(picker, g, r).permission.id == id
  }

  /** Exactly the ids offered or mapped have a row. */
  lemma EveryIdIsShown(catalog: seq<Permission>, mapped: seq<Permission>, collate: Collation, id: string)
    ensures Shown(Picker(catalog, mapped, collate), id) <==> id in Ids(catalog) + Ids(mapped)
  {
    var picker, byId := Picker(catalog, mapped, collate), Filled(Catalogued(catalog), mapped);
    if id in Ids(catalog) + Ids(mapped) {
      FilledEntries(catalog, mapped);
      PickerGroups(catalog, mapped, collate);
      var p :| p in byId && p.id == id;
      var g :| 0 <= g < |picker| && picker[g].applicationId == p.applicationId;
      RowsOfEntries(byId, p.applicationId, Ids(mapped));
      assert IsGroupOf(picker[g], byId, Ids(mapped));
      var r :| 0 <= r < |picker[g].rows| && picker[g].rows[r] == RowFor(p, Ids(mapped));
      assert At(picker, g, r) && RowAt(picker, g, r).permission.id == id;
    } else if Shown(picker, id) {
      var g, r :| At(picker, g, r) && RowAt(picker, g, r).permission.id == id;
      RowsAreTrue(catalog, mapped, collate, g, r);
    }
  }

  /** A group is inert exactly when all its rows are, and no inert group stands before a live one. */
  lemma LiveGroupsFirst(catalog: seq<Permission>, mapped: seq<Permission>, collate: Collation)
    ensures var picker := Picker(catalog, mapped, collate);
            && (forall g :: 0 <= g < |picker| ==>
                  (picker[g].inert <==> forall r :: r in picker[g].rows ==> r.inert != Live))
            && (forall g, h :: 0 <= g < h < |picker| && picker[g].inert ==> picker[h].inert)
            && (forall g, h :: 0 <= g < h < |picker| && picker[g].inert == picker[h].inert ==>
                  collate(picker[g].applicationName) <= collate(picker[h].applicationName))
  {
    var byId := Filled(Catalogued(catalog), mapped);
    PickerGroups(catalog, mapped, collate);
    SortIsStable(Placed(byId, Ids(mapped)), collate, Group("", "", "", true, []));
    var picker := Picker(catalog, mapped, collate);
    forall g | 0 <= g < |picker| ensures picker[g].inert <==> forall r :: r in picker[g].rows ==> r.inert != Live {
      assert IsGroupOf(picker[g], byId, Ids(mapped));
    }
    forall g, h | 0 <= g < h < |picker|
      ensures (picker[g].inert ==> picker[h].inert)
              && (picker[g].inert == picker[h].inert ==>
                    collate(picker[g].applicationName) <= collate(picker[h].applicationName))
    {
      assert Precedes(picker[g], picker[h], collate);
    }
  }

  /** What a save sends when nothing was touched: the checked ids of every row on screen. */
  ghost predicate Checked(picker: seq<Group>, id: string) {
    exists g, r :: At(picker, g, r) && RowAt(picker, g, r).selected && RowAt(picker, g, r).permission.id == id
  }

  /** Saving an untouched picker unmaps nothing and maps nothing, inert rows included. */
  lemma UntouchedSaveKeepsTheMapping(catalog: seq<Permission>, mapped: seq<Permission>, collate: Collation, id: string)
    ensures Checked(Picker(catalog, mapped, collate), id) <==> id in Ids(mapped)
  {
    var picker := Picker(catalog, mapped, collate);
    EveryIdIsShown(catalog, mapped, collate, id);
    forall g, r | At(picker, g, r) && RowAt(picker, g, r).permission.id == id
      ensures RowAt(picker, g, r).selected <==> id in Ids(mapped)
    {
      RowsAreTrue(catalog, mapped, collate, g, r);
    }
  }

  lemma {:induction false} CountIds(ps: seq<Permission>)
    ensures |Ids(ps)| <= |ps|
    ensures |Ids(ps)| == |ps| <==> DistinctIds(ps)
  {
    if ps == [] {
      assert Ids(ps) == {};
    } else {
      var n := |ps| - 1;
      assert ps == ps[..n] + [ps[n]];
      CountIds(ps[..n]);
      IdsOfMore(ps[..n], ps[n]);
      AppendDistinct(ps[..n], ps[n]);
    }
  }

  lemma SameSize<T>(small: set<T>, large: set<T>)
    requires small <= large && |small| == |large|
    ensures small == large
  {
    assert large == small + (large - small);
  }

  /** The change test is exact for every choice just when the mapping lists no id twice. */
  lemma SelectionChangedIff(mapped: seq<Permission>)
    ensures (forall chosen :: SelectionChanged(mapped, chosen) <==> chosen != Ids(mapped)) <==> DistinctIds(mapped)
  {
    CountIds(mapped);
    if DistinctIds(mapped) {
      forall chosen ensures SelectionChanged(mapped, chosen) <==> chosen != Ids(mapped) {
        if !SelectionChanged(mapped, chosen) {
          SameSize(Ids(mapped), chosen);
        }
      }
    } else {
      assert SelectionChanged(mapped, Ids(mapped));
    }
  }

  // ---- the catalog's order --------------------------------------------------------------------

  lemma {:induction false} IndexOfMore(ps: seq<Permission>, p: Permission, id: string)
    ensures id in Ids(ps) ==> IndexOfId(ps + [p], id) == IndexOfId(ps, id) < |ps|
    ensures id !in Ids(ps) && id == p.id ==> IndexOfId(ps + [p], id) == |ps|
  {
    var i, j := IndexOfId(ps, id), IndexOfId(ps + [p], id);
    assert forall k :: 0 <= k < |ps| ==> (ps + [p])[k] == ps[k];
    assert (ps + [p])[|ps|] == p;
    if id in Ids(ps) {
      var k :| 0 <= k < |ps| && ps[k].id == id;
      assert i <= k && (ps + [p])[i].id == id;
    }
    forall k | 0 <= k < |ps| ensures ps[k].id in Ids(ps) {
    }
  }

  /** The entries stand in the order in which their ids first appear. */
  ghost predicate FirstSeenFirst(byId: seq<Permission>, all: seq<Permission>) {
    forall i, j :: 0 <= i < j < |byId| ==> IndexOfId(all, byId[i].id) < IndexOfId(all, byId[j].id)
  }

  /** One more row read: its id is known already, and nothing moves, or it is new and comes last. */
  lemma SeenMore(before: seq<Permission>, after: seq<Permission>, all: seq<Permission>, p: Permission)
    requires FirstSeenFirst(before, all) && Ids(before) == Ids(all)
    requires |before| <= |after| <= |before| + 1
    requires forall k :: 0 <= k < |before| ==> after[k].id == before[k].id
    requires |after| > |before| ==> after[|before|].id == p.id && p.id !in Ids(all)
    ensures FirstSeenFirst(after, all + [p])
  {
    forall i, j | 0 <= i < j < |after| ensures IndexOfId(all + [p], after[i].id) < IndexOfId(all + [p], after[j].id) {
      SeenAt(before, all, p, i);
      if j < |before| {
        SeenAt(before, all, p, j);
        assert IndexOfId(all, before[i].id) < IndexOfId(all, before[j].id);
      } else {
        IndexOfMore(all, p, p.id);
      }
    }
  }

  lemma SeenAt(before: seq<Permission>, all: seq<Permission>, p: Permission, i: nat)
    requires Ids(before) == Ids(all) && i < |before|
    ensures IndexOfId(all + [p], before[i].id) == IndexOfId(all, before[i].id) < |all|
  {
    assert before[i].id in Ids(before);
    IndexOfMore(all, p, before[i].id);
  }

  lemma {:induction false} CataloguedInOrder(catalog: seq<Permission>)
    ensures FirstSeenFirst(Catalogued(catalog), catalog)
  {
    if catalog != [] {
      var n := |catalog| - 1;
      var before, p := Catalogued(catalog[..n]), catalog[n];
      CataloguedInOrder(catalog[..n]);
      CataloguedIds(catalog[..n]);
      assert catalog == catalog[..n] + [p];
      PutMore(before, catalog[..n], p);
    }
  }

  lemma NotIndexed(ps: seq<Permission>, id: string)
    requires IndexOfId(ps, id) == |ps|
    ensures id !in Ids(ps)
  {
  }

  lemma {:induction false} FilledInOrder(catalog: seq<Permission>, mapped: seq<Permission>)
    ensures FirstSeenFirst(Filled(Catalogued(catalog), mapped), catalog + mapped)
    decreases |mapped|
  {
    if mapped == [] {
      CataloguedInOrder(catalog);
      assert catalog + mapped == catalog;
    } else {
      var n := |mapped| - 1;
      var before, p := Filled(Catalogued(catalog), mapped[..n]), mapped[n];
      FilledInOrder(catalog, mapped[..n]);
      IdsSoFar(catalog, mapped[..n]);
      FillMore(before, catalog + mapped[..n], p);
      SameRows(catalog, mapped);
    }
  }

  lemma SameRows(catalog: seq<Permission>, mapped: seq<Permission>)
    requires mapped != []
    ensures catalog + mapped == catalog + mapped[..|mapped| - 1] + [mapped[|mapped| - 1]]
  {
  }

  lemma IdsSoFar(catalog: seq<Permission>, mapped: seq<Permission>)
    ensures Ids(Filled(Catalogued(catalog), mapped)) == Ids(catalog + mapped)
  {
    FilledEntries(catalog, mapped);
    IdsOfBoth(catalog, mapped);
  }

  lemma FillMore(before: seq<Permission>, all: seq<Permission>, p: Permission)
    requires FirstSeenFirst(before, all) && Ids(before) == Ids(all)
    ensures FirstSeenFirst(if IndexOfId(before, p.id) < |before| then before else before + [p], all + [p])
  {
    if IndexOfId(before, p.id) == |before| {
      NotIndexed(before, p.id);
      SeenMore(before, before + [p], all, p);
    } else {
      SeenMore(before, before, all, p);
    }
  }

  lemma PutMore(before: seq<Permission>, all: seq<Permission>, p: Permission)
    requires FirstSeenFirst(before, all) && Ids(before) == Ids(all)
    ensures FirstSeenFirst(Put(before, p), all + [p])
  {
    if IndexOfId(before, p.id) == |before| {
      NotIndexed(before, p.id);
    }
    SeenMore(before, Put(before, p), all, p);
  }

  lemma IdsOfBoth(a: seq<Permission>, b: seq<Permission>)
    ensures Ids(a + b) == Ids(a) + Ids(b)
  {
    forall id ensures id in Ids(a + b) <==> id in Ids(a) + Ids(b) {
      if id in Ids(a) {
        var k :| 0 <= k < |a| && a[k].id == id;
        assert (a + b)[k].id == id;
      } else if id in Ids(b) {
        var k :| 0 <= k < |b| && b[k].id == id;
        assert (a + b)[|a| + k].id == id;
      }
    }
  }

  ghost predicate RowsInOrder(rows: seq<Row>, all: seq<Permission>) {
    forall a, b :: 0 <= a < b < |rows| ==> IndexOfId(all, rows[a].permission.id) < IndexOfId(all, rows[b].permission.id)
  }

  lemma {:induction false} RowsOfInOrder(
      byId: seq<Permission>, app: string, selected: set<string>, all: seq<Permission>)
    requires FirstSeenFirst(byId, all)
    ensures RowsInOrder(RowsOf(byId, app, selected), all)
  {
    if byId != [] {
      var n := |byId| - 1;
      RowsOfInOrder(byId[..n], app, selected, all);
      RowsOfEntries(byId[..n], app, selected);
      var before := RowsOf(byId[..n], app, selected);
      forall a | 0 <= a < |before|
        ensures IndexOfId(all, before[a].permission.id) < IndexOfId(all, byId[n].id)
      {
        assert before[a] in before;
        var k :| 0 <= k < n && byId[..n][k] == before[a].permission;
        assert byId[k].id == before[a].permission.id;
      }
    }
  }

  /** Groups stand in the order in which their first rows were first seen. */
  ghost predicate GroupsInOrder(groups: seq<Group>, all: seq<Permission>) {
    && (forall i :: 0 <= i < |groups| ==> groups[i].rows != [])
    && (forall i, j :: 0 <= i < j < |groups| ==>
          IndexOfId(all, groups[i].rows[0].permission.id) < IndexOfId(all, groups[j].rows[0].permission.id))
  }

  lemma {:induction false} PlacedInOrder(byId: seq<Permission>, selected: set<string>, all: seq<Permission>)
    requires FirstSeenFirst(byId, all)
    ensures GroupsInOrder(Placed(byId, selected), all)
  {
    if byId != [] {
      var n := |byId| - 1;
      var before, p := Placed(byId[..n], selected), byId[n];
      PlacedInOrder(byId[..n], selected, all);
      PlacedGroups(byId[..n], selected);
      forall k | 0 <= k < |before| ensures IndexOfId(all, before[k].rows[0].permission.id) < IndexOfId(all, p.id) {
        FirstRowSeenBefore(before[k], byId, selected, all);
      }
      PlaceInOrder(before, p, selected, all);
    }
  }

  lemma FirstRowSeenBefore(g: Group, byId: seq<Permission>, selected: set<string>, all: seq<Permission>)
    requires byId != [] && FirstSeenFirst(byId, all) && IsGroupOf(g, byId[..|byId| - 1], selected)
    ensures IndexOfId(all, g.rows[0].permission.id) < IndexOfId(all, byId[|byId| - 1].id)
  {
    var n := |byId| - 1;
    RowIsEntry(g, byId[..n], selected, 0);
    var i :| 0 <= i < n && byId[..n][i] == g.rows[0].permission;
    assert byId[i].id == g.rows[0].permission.id;
  }

  lemma PlaceInOrder(before: seq<Group>, p: Permission, selected: set<string>, all: seq<Permission>)
    requires GroupsInOrder(before, all)
    requires forall k :: 0 <= k < |before| ==> IndexOfId(all, before[k].rows[0].permission.id) < IndexOfId(all, p.id)
    ensures GroupsInOrder(Place(before, p, selected), all)
  {
    var groups := Place(before, p, selected);
    forall k | 0 <= k < |before| ensures groups[k].rows != [] && groups[k].rows[0] == before[k].rows[0] {
    }
  }

  lemma {:induction false} TiesInOrder(groups: seq<Group>, like: Group, collate: Collation, all: seq<Permission>)
    requires GroupsInOrder(groups, all)
    ensures GroupsInOrder(Ties(groups, like, collate), all)
    ensures forall g :: g in Ties(groups, like, collate) ==> g in groups
  {
    if groups != [] {
      var n := |groups| - 1;
      TiesInOrder(groups[..n], like, collate, all);
      var before := Ties(groups[..n], like, collate);
      forall k | 0 <= k < |before|
        ensures IndexOfId(all, before[k].rows[0].permission.id) < IndexOfId(all, groups[n].rows[0].permission.id)
      {
        assert before[k] in groups[..n];
      }
    }
  }

  predicate Tie(a: Group, b: Group, collate: Collation) {
    a.inert == b.inert && collate(a.applicationName) == collate(b.applicationName)
  }

  /** Two groups that tie with a third stand among its ties in the order they stand in. */
  lemma {:induction false} TiesKeepOrder(groups: seq<Group>, g: nat, h: nat, like: Group, collate: Collation)
      returns (a: nat, b: nat)
    requires g < h < |groups| && Tie(groups[g], like, collate) && Tie(groups[h], like, collate)
    ensures a < b < |Ties(groups, like, collate)|
    ensures Ties(groups, like, collate)[a] == groups[g] && Ties(groups, like, collate)[b] == groups[h]
  {
    var n := |groups| - 1;
    if h == n {
      a := TiePosition(groups[..n], g, like, collate);
      b := |Ties(groups[..n], like, collate)|;
    } else {
      a, b := TiesKeepOrder(groups[..n], g, h, like, collate);
    }
  }

  lemma {:induction false} TiePosition(groups: seq<Group>, g: nat, like: Group, collate: Collation) returns (a: nat)
    requires g < |groups| && Tie(groups[g], like, collate)
    ensures a < |Ties(groups, like, collate)| && Ties(groups, like, collate)[a] == groups[g]
  {
    var n := |groups| - 1;
    if g == n {
      a := |Ties(groups[..n], like, collate)|;
    } else {
      a := TiePosition(groups[..n], g, like, collate);
    }
  }

  /**
   * The order is the catalog's, the role's own rows after it: within a group rows stand in the order in which their
   * ids first appear there, and groups that tie under the comparator in that of their first rows.
   */
  lemma PickerKeepsCatalogOrder(catalog: seq<Permission>, mapped: seq<Permission>, collate: Collation)
    ensures var picker, all := Picker(catalog, mapped, collate), catalog + mapped;
            && (forall g :: 0 <= g < |picker| ==> picker[g].rows != [] && RowsInOrder(picker[g].rows, all))
            && (forall g, h :: 0 <= g < h < |picker| && Tie(picker[g], picker[h], collate) ==>
                  IndexOfId(all, picker[g].rows[0].permission.id) < IndexOfId(all, picker[h].rows[0].permission.id))
  {
    var byId, all := Filled(Catalogued(catalog), mapped), catalog + mapped;
    var groups, picker := Placed(byId, Ids(mapped)), Picker(catalog, mapped, collate);
    FilledInOrder(catalog, mapped);
    PickerGroups(catalog, mapped, collate);
    PlacedInOrder(byId, Ids(mapped), all);
    forall g | 0 <= g < |picker| ensures picker[g].rows != [] && RowsInOrder(picker[g].rows, all) {
      assert IsGroupOf(picker[g], byId, Ids(mapped));
      RowsOfInOrder(byId, picker[g].applicationId, Ids(mapped), all);
    }
    forall g, h | 0 <= g < h < |picker| && Tie(picker[g], picker[h], collate)
      ensures IndexOfId(all, picker[g].rows[0].permission.id) < IndexOfId(all, picker[h].rows[0].permission.id)
    {
      TiedGroupsInOrder(groups, collate, all, g, h);
    }
  }

  lemma TiedGroupsInOrder(groups: seq<Group>, collate: Collation, all: seq<Permission>, g: nat, h: nat)
    requires GroupsInOrder(groups, all)
    requires g < h < |Sorted(groups, collate)|
    requires Tie(Sorted(groups, collate)[g], Sorted(groups, collate)[h], collate)
    ensures var sorted := Sorted(groups, collate);
            && sorted[g].rows != [] && sorted[h].rows != []
            && IndexOfId(all, sorted[g].rows[0].permission.id) < IndexOfId(all, sorted[h].rows[0].permission.id)
  {
    var sorted := Sorted(groups, collate);
    var a, b := TiesKeepOrder(sorted, g, h, sorted[g], collate);
    SortIsStable(groups, collate, sorted[g]);
    TiesInOrder(groups, sorted[g], collate, all);
  }
}
