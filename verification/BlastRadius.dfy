/**
 * What changes about the built application between two specs: the exact diff of two surface
 * inventories, and the capped summary a mutation reply carries.
 * Models blastRadius, bySeverity, coverageOf and opEffect of packages/mcp/src/blast-radius.ts.
 */
module BlastRadius {
  import opened Collections
  import opened Surfaces
  import Sorting

  datatype Change = Change(surface: Surface, before: Option<string>, after: Option<string>)

  /** `untouched` counts the surfaces the diff does not list. */
  datatype Radius = Radius(added: seq<Surface>, removed: seq<Surface>, changed: seq<Change>, untouched: nat, touchesPublic: bool)

  // ---------------------------------------------------------------------------
  // An inventory by id: a JavaScript Map keeps a key's first place and its last value
  // ---------------------------------------------------------------------------

  datatype Inventory = Inventory(ids: seq<string>, at: map<string, Surface>)

  function Put(inventory: Inventory, s: Surface): Inventory {
    Inventory(if s.id in inventory.at then inventory.ids else inventory.ids + [s.id], inventory.at[s.id := s])
  }

  function ById(surfaces: seq<Surface>): Inventory {
    if surfaces == [] then Inventory([], map[])
    else Put(ById(surfaces[..|surfaces| - 1]), surfaces[|surfaces| - 1])
  }

  ghost predicate Indexed(inventory: Inventory) {
    && Distinct(inventory.ids)
    && (forall id :: id in inventory.ids <==> id in inventory.at)
    && (forall id :: id in inventory.at ==> inventory.at[id].id == id)
    && (forall id :: id in inventory.at ==> Kinded(inventory.at[id]))
  }

  lemma {:induction false} PutIndexed(inventory: Inventory, s: Surface)
    requires Indexed(inventory) && Kinded(s)
    ensures Indexed(Put(inventory, s))
  {
    var after := Put(inventory, s);
    forall id
      ensures id in after.ids <==> id in after.at
    {
      assert id in inventory.ids + [s.id] <==> id in inventory.ids || id == s.id;
    }
  }

  lemma {:induction false} ByIdIndexed(surfaces: seq<Surface>)
    requires AllKinded(surfaces)
    ensures Indexed(ById(surfaces))
  {
    if surfaces != [] {
      var n := |surfaces| - 1;
      ByIdIndexed(surfaces[..n]);
      PutIndexed(ById(surfaces[..n]), surfaces[n]);
    }
  }

  /** The ids are exactly the surfaces', and each entry is one of them. */
  lemma {:induction false} ByIdMember(surfaces: seq<Surface>, id: string)
    ensures id in ById(surfaces).at <==> exists s :: s in surfaces && s.id == id
    ensures id in ById(surfaces).at ==> ById(surfaces).at[id] in surfaces
  {
    if surfaces != [] {
      var n := |surfaces| - 1;
      ByIdMember(surfaces[..n], id);
      assert surfaces == surfaces[..n] + [surfaces[n]];
      assert surfaces[n] in surfaces;
    }
  }

  /** Of surfaces under one id the last counts. */
  lemma {:induction false} ByIdIsLast(surfaces: seq<Surface>, k: nat)
    requires k < |surfaces| && forall j :: k < j < |surfaces| ==> surfaces[j].id != surfaces[k].id
    ensures surfaces[k].id in ById(surfaces).at && ById(surfaces).at[surfaces[k].id] == surfaces[k]
  {
    var n := |surfaces| - 1;
    if k < n {
      assert surfaces[..n][k] == surfaces[k];
      ByIdIsLast(surfaces[..n], k);
    }
  }

  // ---------------------------------------------------------------------------
  // The diff
  // ---------------------------------------------------------------------------

  predicate Same(before: Inventory, after: Inventory, id: string) {
    id in before.at && id in after.at && before.at[id].detail == after.at[id].detail
  }

  function AddedBy(before: Inventory, after: Inventory): string -> Option<Surface> {
    (id: string) => if id in after.at && id !in before.at then Some(after.at[id]) else None
  }

  function ChangedBy(before: Inventory, after: Inventory): string -> Option<Change> {
    (id: string) =>
      if id in before.at && id in after.at && before.at[id].detail != after.at[id].detail
      then Some(Change(after.at[id], before.at[id].detail, after.at[id].detail)) else None
  }

  function SameIn(before: Inventory, after: Inventory): string -> bool {
    (id: string) => Same(before, after, id)
  }

  function Rank(kind: Kind): nat {
    match kind
    case PublicField => 0 case PublicWrite => 1 case Table => 2 case Column => 3
    case Route => 4 case Form => 5 case Rest => 6 case Tool => 7
  }

  /** Worst kind first, then by id under the locale's order. */
  predicate Precedes(locale: (string, string) -> bool, a: Surface, b: Surface) {
    Rank(a.kind) < Rank(b.kind) || (a.kind == b.kind && locale(a.id, b.id))
  }

  function BySeverity(locale: (string, string) -> bool): (Surface, Surface) -> bool {
    (a: Surface, b: Surface) => Precedes(locale, a, b)
  }

  function ByChangedSeverity(locale: (string, string) -> bool): (Change, Change) -> bool {
    (a: Change, b: Change) => Precedes(locale, a.surface, b.surface)
  }

  predicate IsPublic(s: Surface) {
    s.kind.PublicField? || s.kind.PublicWrite?
  }

  function AnyPublic(surfaces: seq<Surface>): (r: bool)
    ensures r <==> exists i :: 0 <= i < |surfaces| && IsPublic(surfaces[i])
  {
    surfaces != [] && (IsPublic(surfaces[0]) || AnyPublic(surfaces[1..]))
  }

  function SurfaceOf(): Change -> Surface {
    (c: Change) => c.surface
  }

  /** The lists in the order the loops fill them. */
  function Unsorted(before: Inventory, after: Inventory): Radius {
    var added := FilterMap(after.ids, AddedBy(before, after));
    var removed := FilterMap(before.ids, AddedBy(after, before));
    var changed := FilterMap(after.ids, ChangedBy(before, after));
    Radius(added, removed, changed, |Filter(after.ids, SameIn(before, after))|,
           AnyPublic(added + removed + Map(changed, SurfaceOf())))
  }

  function Diff(before: seq<Surface>, after: seq<Surface>, locale: (string, string) -> bool): Radius {
    var r := Unsorted(ById(before), ById(after));
    var added, removed := Sorting.SortBy(r.added, BySeverity(locale)), Sorting.SortBy(r.removed, BySeverity(locale));
    var changed := Sorting.SortBy(r.changed, ByChangedSeverity(locale));
    Radius(added, removed, changed, r.untouched, AnyPublic(added + removed + Map(changed, SurfaceOf())))
  }

  /** blastRadius's loop over what is there after. */
  method Compare(b: Inventory, a: Inventory) returns (added: seq<Surface>, changed: seq<Change>, untouched: nat)
    requires forall i :: 0 <= i < |a.ids| ==> a.ids[i] in a.at
    ensures added == FilterMap(a.ids, AddedBy(b, a))
    ensures changed == FilterMap(a.ids, ChangedBy(b, a))
    ensures untouched == |Filter(a.ids, SameIn(b, a))|
  {
    added, changed, untouched := [], [], 0;
    for i := 0 to |a.ids|
      invariant added == FilterMap(a.ids[..i], AddedBy(b, a))
      invariant changed == FilterMap(a.ids[..i], ChangedBy(b, a))
      invariant untouched == |Filter(a.ids[..i], SameIn(b, a))|
    {
      var id := a.ids[i];
      AddedStep(b, a, i);
      ChangedStep(b, a, i);
      if id !in b.at {
        added := added + [a.at[id]];
      } else if b.at[id].detail != a.at[id].detail {
        changed := changed + [Change(a.at[id], b.at[id].detail, a.at[id].detail)];
      } else {
        untouched := untouched + 1;
      }
    }
    assert a.ids[..|a.ids|] == a.ids;
  }

  /** blastRadius's loop over what was there before. */
  method Missing(b: Inventory, a: Inventory) returns (removed: seq<Surface>)
    requires forall i :: 0 <= i < |b.ids| ==> b.ids[i] in b.at
    ensures removed == FilterMap(b.ids, AddedBy(a, b))
  {
    removed := [];
    for i := 0 to |b.ids|
      invariant removed == FilterMap(b.ids[..i], AddedBy(a, b))
    {
      var id := b.ids[i];
      AddedStep(a, b, i);
      if id !in a.at {
        removed := removed + [b.at[id]];
      }
    }
    assert b.ids[..|b.ids|] == b.ids;
  }

  method BlastRadius(before: seq<Surface>, after: seq<Surface>, locale: (string, string) -> bool) returns (r: Radius)
    requires AllKinded(before) && AllKinded(after)
    ensures r == Diff(before, after, locale)
  {
    var b, a := ById(before), ById(after);
    IdsAreThere(before, b);
    IdsAreThere(after, a);
    var added, changed, untouched := Compare(b, a);
    var removed := Missing(b, a);
    added := Sorting.SortBy(added, BySeverity(locale));
    removed := Sorting.SortBy(removed, BySeverity(locale));
    changed := Sorting.SortBy(changed, ByChangedSeverity(locale));
    r := Radius(added, removed, changed, untouched, AnyPublic(added + removed + Map(changed, SurfaceOf())));
  }

  lemma {:induction false} IdsAreThere(surfaces: seq<Surface>, inventory: Inventory)
    requires AllKinded(surfaces) && inventory == ById(surfaces)
    ensures forall i :: 0 <= i < |inventory.ids| ==> inventory.ids[i] in inventory.at
  {
    ByIdIndexed(surfaces);
    assert forall i :: 0 <= i < |inventory.ids| ==> inventory.ids[i] in inventory.ids;
  }

  lemma {:induction false} CountStep<T>(s: seq<T>, i: nat, p: T -> bool)
    requires i < |s|
    ensures |Filter(s[..i + 1], p)| == |Filter(s[..i], p)| + if p(s[i]) then 1 else 0
  {
    assert s[..i + 1] == s[..i] + [s[i]];
    FilterAppend(s[..i], [s[i]], p);
    assert [s[i]][1..] == [];
  }

  lemma {:induction false} AddedStep(b: Inventory, a: Inventory, i: nat)
    requires i < |a.ids| && a.ids[i] in a.at
    ensures FilterMap(a.ids[..i + 1], AddedBy(b, a))
            == FilterMap(a.ids[..i], AddedBy(b, a)) + if a.ids[i] in b.at then [] else [a.at[a.ids[i]]]
  {
    FilterMapStep(a.ids, i, AddedBy(b, a));
  }

  lemma {:induction false} ChangedStep(b: Inventory, a: Inventory, i: nat)
    requires i < |a.ids| && a.ids[i] in a.at
    ensures var id := a.ids[i];
            FilterMap(a.ids[..i + 1], ChangedBy(b, a))
            == FilterMap(a.ids[..i], ChangedBy(b, a))
               + if id in b.at && b.at[id].detail != a.at[id].detail then [Change(a.at[id], b.at[id].detail, a.at[id].detail)] else []
    ensures |Filter(a.ids[..i + 1], SameIn(b, a))|
            == |Filter(a.ids[..i], SameIn(b, a))| + if Same(b, a, a.ids[i]) then 1 else 0
  {
    FilterMapStep(a.ids, i, ChangedBy(b, a));
    CountStep(a.ids, i, SameIn(b, a));
  }

  // ---------------------------------------------------------------------------
  // The diff is exact
  // ---------------------------------------------------------------------------

  lemma {:induction false} AddedMember(before: Inventory, after: Inventory, s: Surface)
    requires Indexed(before) && Indexed(after)
    ensures s in FilterMap(after.ids, AddedBy(before, after)) <==> s.id in after.at && s.id !in before.at && after.at[s.id] == s
  {
    FilterMapMember(after.ids, AddedBy(before, after), s);
    if s.id in after.at && s.id !in before.at && after.at[s.id] == s {
      assert s.id in after.ids;
      var i :| 0 <= i < |after.ids| && after.ids[i] == s.id;
      assert AddedBy(before, after)(after.ids[i]) == Some(s);
    }
  }

  lemma {:induction false} ChangedMember(before: Inventory, after: Inventory, c: Change)
    requires Indexed(before) && Indexed(after)
    ensures c in FilterMap(after.ids, ChangedBy(before, after)) <==>
              && c.surface.id in before.at && c.surface.id in after.at && c.before != c.after
              && c.surface == after.at[c.surface.id] && c.before == before.at[c.surface.id].detail && c.after == c.surface.detail
  {
    FilterMapMember(after.ids, ChangedBy(before, after), c);
    if c.surface.id in before.at && c.surface.id in after.at && ChangedBy(before, after)(c.surface.id) == Some(c) {
      assert c.surface.id in after.ids;
      var i :| 0 <= i < |after.ids| && after.ids[i] == c.surface.id;
      assert ChangedBy(before, after)(after.ids[i]) == Some(c);
    }
  }

  /** A radius whose lists hold exactly what the inventories differ in. */
  ghost predicate Exact(before: map<string, Surface>, after: map<string, Surface>, r: Radius) {
    && (forall s :: s in r.added <==> s.id in after && s.id !in before && after[s.id] == s)
    && (forall s :: s in r.removed <==> s.id in before && s.id !in after && before[s.id] == s)
    && (forall c :: c in r.changed <==>
                      && c.surface.id in before && c.surface.id in after && c.before != c.after
                      && c.surface == after[c.surface.id] && c.before == before[c.surface.id].detail && c.after == c.surface.detail)
  }

  lemma {:induction false} DiffIsExact(before: seq<Surface>, after: seq<Surface>, locale: (string, string) -> bool)
    requires AllKinded(before) && AllKinded(after)
    ensures Exact(ById(before).at, ById(after).at, Diff(before, after, locale))
  {
    var b, a := ById(before), ById(after);
    ByIdIndexed(before);
    ByIdIndexed(after);
    var r, u := Diff(before, after, locale), Unsorted(b, a);
    forall s
      ensures s in r.added <==> s.id in a.at && s.id !in b.at && a.at[s.id] == s
      ensures s in r.removed <==> s.id in b.at && s.id !in a.at && b.at[s.id] == s
    {
      AddedMember(b, a, s);
      AddedMember(a, b, s);
      assert s in r.added <==> s in multiset(r.added);
      assert s in r.removed <==> s in multiset(r.removed);
    }
    forall c
      ensures c in r.changed <==>
                && c.surface.id in b.at && c.surface.id in a.at && c.before != c.after
                && c.surface == a.at[c.surface.id] && c.before == b.at[c.surface.id].detail && c.after == c.surface.detail
    {
      ChangedMember(b, a, c);
      assert c in r.changed <==> c in multiset(r.changed);
    }
  }

  // --- applying the diff ---

  /** `before` with the removed taken out and the added and changed put in. */
  ghost function Patched(before: map<string, Surface>, r: Radius): map<string, Surface> {
    map id | id in before.Keys + Ids(r.added) + ChangedIds(r.changed) && !(id in Ids(r.removed)) ::
      if id in ChangedIds(r.changed) then TheChange(r.changed, id).surface
      else if id in Ids(r.added) then TheSurface(r.added, id)
      else before[id]
  }

  ghost function Ids(s: seq<Surface>): set<string> {
    set x | x in s :: x.id
  }

  ghost function ChangedIds(s: seq<Change>): set<string> {
    set c | c in s :: c.surface.id
  }

  ghost function TheChange(s: seq<Change>, id: string): (c: Change)
    requires id in ChangedIds(s)
    ensures c in s && c.surface.id == id
  {
    var c :| c in s && c.surface.id == id;
    c
  }

  ghost function TheSurface(s: seq<Surface>, id: string): (x: Surface)
    requires id in Ids(s)
    ensures x in s && x.id == id
  {
    var x :| x in s && x.id == id;
    x
  }

  /** Two surfaces that differ in their captions at most. */
  predicate Alike(a: Surface, b: Surface) {
    a.kind == b.kind && a.id == b.id && a.detail == b.detail
  }

  /**
   * Applying the diff to the inventory before gives the inventory after, surface for surface but for
   * labels; exactly, if and only if no surface changed its label and nothing else.
   */
  lemma {:induction false} PatchGivesAfter(before: seq<Surface>, after: seq<Surface>, locale: (string, string) -> bool)
    requires AllKinded(before) && AllKinded(after)
    ensures var b, a := ById(before).at, ById(after).at;
            var p := Patched(b, Diff(before, after, locale));
            && p.Keys == a.Keys
            && (forall id :: id in a ==> Alike(p[id], a[id]))
            && (p == a <==> forall id :: id in a && id in b && b[id].detail == a[id].detail ==> b[id] == a[id])
  {
    var b, a, r := ById(before).at, ById(after).at, Diff(before, after, locale);
    ByIdIndexed(before);
    ByIdIndexed(after);
    DiffIsExact(before, after, locale);
    forall id
      ensures id in Patched(b, r) <==> id in a
      ensures id in a ==> Patched(b, r)[id] == Kept(b, a, id)
    {
      PatchedAt(b, a, r, id);
    }
    forall id | id in a && id in b
      ensures b[id].kind == a[id].kind
    {
      KindFromId(b[id], a[id]);
    }
    PatchedAlike(b, a, Patched(b, r));
  }

  /** The surface before where only its label may have changed, the surface after elsewhere. */
  ghost function Kept(b: map<string, Surface>, a: map<string, Surface>, id: string): Surface
    requires id in a
  {
    if id in b && b[id].detail == a[id].detail then b[id] else a[id]
  }

  lemma {:induction false} PatchedAlike(b: map<string, Surface>, a: map<string, Surface>, p: map<string, Surface>)
    requires forall id :: id in p <==> id in a
    requires forall id :: id in a ==> p[id] == Kept(b, a, id)
    requires forall id :: id in b ==> b[id].id == id
    requires forall id :: id in a ==> a[id].id == id
    requires forall id :: id in a && id in b ==> b[id].kind == a[id].kind
    ensures p.Keys == a.Keys
    ensures forall id :: id in a ==> Alike(p[id], a[id])
    ensures p == a <==> forall id :: id in a && id in b && b[id].detail == a[id].detail ==> b[id] == a[id]
  {
    if p == a {
      forall id | id in a && id in b && b[id].detail == a[id].detail
        ensures b[id] == a[id]
      {
        assert p[id] == a[id];
      }
    }
  }

  lemma {:induction false} PatchedAt(b: map<string, Surface>, a: map<string, Surface>, r: Radius, id: string)
    requires Exact(b, a, r)
    requires forall k :: k in b ==> b[k].id == k
    requires forall k :: k in a ==> a[k].id == k
    ensures id in Patched(b, r) <==> id in a
    ensures id in a ==> Patched(b, r)[id] == Kept(b, a, id)
  {
    if id in a && id !in b {
      assert a[id] in r.added;
    }
    if id in b && id !in a {
      assert b[id] in r.removed;
    }
    if id in b && id in a && b[id].detail != a[id].detail {
      assert Change(a[id], b[id].detail, a[id].detail) in r.changed;
    }
  }

  // ---------------------------------------------------------------------------
  // Everything is counted
  // ---------------------------------------------------------------------------

  function In(inventory: Inventory): string -> bool {
    (id: string) => id in inventory.at
  }

  lemma {:induction false} ThreeWays(ids: seq<string>, before: Inventory, after: Inventory)
    requires forall i :: 0 <= i < |ids| ==> ids[i] in after.at
    ensures |FilterMap(ids, AddedBy(before, after))| + |Filter(ids, In(before))| == |ids|
    ensures |FilterMap(ids, ChangedBy(before, after))| + |Filter(ids, SameIn(before, after))| == |Filter(ids, In(before))|
  {
    if ids != [] {
      ThreeWays(ids[1..], before, after);
    }
  }

  lemma {:induction false} FilterCounts(ids: seq<string>, inventory: Inventory)
    requires Distinct(ids)
    ensures |Filter(ids, In(inventory))| == |(set id | id in ids && id in inventory.at)|
  {
    if ids != [] {
      FilterCounts(ids[1..], inventory);
      var all, rest := set id | id in ids && id in inventory.at, set id | id in ids[1..] && id in inventory.at;
      assert ids[0] !in ids[1..];
      assert all == rest + if ids[0] in inventory.at then {ids[0]} else {};
    }
  }

  /** How many of `a`'s ids `b` has: as many as `b`'s that `a` has. */
  lemma {:induction false} CommonCounts(b: Inventory, a: Inventory)
    requires Indexed(b) && Indexed(a)
    ensures |Filter(a.ids, In(b))| == |Filter(b.ids, In(a))|
    ensures |a.ids| == |a.at|
  {
    FilterCounts(a.ids, b);
    FilterCounts(b.ids, a);
    assert (set id | id in a.ids && id in b.at) == (set id | id in b.ids && id in a.at);
    FilterCounts(a.ids, a);
    AllKept(a.ids, a);
    assert (set id | id in a.ids && id in a.at) == a.at.Keys;
  }

  lemma {:induction false} AllKept(ids: seq<string>, inventory: Inventory)
    requires forall i :: 0 <= i < |ids| ==> ids[i] in inventory.at
    ensures |Filter(ids, In(inventory))| == |ids|
  {
    if ids != [] {
      AllKept(ids[1..], inventory);
    }
  }

  /** Added, changed and untouched count the ids after; removed, changed and untouched the ids before. */
  lemma {:induction false} EverySurfaceCounted(before: seq<Surface>, after: seq<Surface>, locale: (string, string) -> bool)
    requires AllKinded(before) && AllKinded(after)
    ensures var r := Diff(before, after, locale);
            && |r.added| + |r.changed| + r.untouched == |ById(after).at|
            && |r.removed| + |r.changed| + r.untouched == |ById(before).at|
  {
    var b, a := ById(before), ById(after);
    ByIdIndexed(before);
    ByIdIndexed(after);
    assert forall i :: 0 <= i < |a.ids| ==> a.ids[i] in a.ids;
    assert forall i :: 0 <= i < |b.ids| ==> b.ids[i] in b.ids;
    ThreeWays(a.ids, b, a);
    ThreeWays(b.ids, a, b);
    CommonCounts(b, a);
    CommonCounts(a, b);
  }

  // ---------------------------------------------------------------------------
  // Order
  // ---------------------------------------------------------------------------

  ghost predicate TotalOrder(less: (string, string) -> bool) {
    && (forall a :: !less(a, a))
    && (forall a, b :: a == b || less(a, b) || less(b, a))
    && Sorting.Transitive(less)
  }

  lemma {:induction false} SeverityIsTransitive(locale: (string, string) -> bool)
    requires TotalOrder(locale)
    ensures Sorting.Transitive(BySeverity(locale)) && Sorting.Transitive(ByChangedSeverity(locale))
  {
    forall a: Surface, b: Surface, c: Surface | Precedes(locale, a, b) && Precedes(locale, b, c)
      ensures Precedes(locale, a, c)
    {
    }
  }

  lemma {:induction false} PrecedesTellsApart(locale: (string, string) -> bool, a: Surface, b: Surface)
    requires TotalOrder(locale) && a.id != b.id
    ensures Precedes(locale, a, b) || Precedes(locale, b, a)
  {
    assert Rank(a.kind) == Rank(b.kind) ==> a.kind == b.kind;
  }

  /** What a loop over distinct ids collects keeps them distinct. */
  lemma {:induction false} FoundDistinct<B>(ids: seq<string>, f: string -> Option<B>, idOf: B -> string)
    requires Distinct(ids) && forall id :: id in ids && f(id).Some? ==> idOf(f(id).value) == id
    ensures forall i :: 0 <= i < |FilterMap(ids, f)| ==> idOf(FilterMap(ids, f)[i]) in ids
    ensures forall i, j :: 0 <= i < j < |FilterMap(ids, f)| ==> idOf(FilterMap(ids, f)[i]) != idOf(FilterMap(ids, f)[j])
  {
    if ids != [] {
      assert ids[0] in ids && ids[0] !in ids[1..];
      FoundDistinct(ids[1..], f, idOf);
      var s, rest := FilterMap(ids, f), FilterMap(ids[1..], f);
      var head := if f(ids[0]).Some? then [f(ids[0]).value] else [];
      assert s == head + rest;
      forall i | 0 <= i < |s|
        ensures idOf(s[i]) in ids
        ensures i >= |head| ==> idOf(s[i]) in ids[1..]
        ensures i < |head| ==> idOf(s[i]) == ids[0]
      {
        if i >= |head| {
          assert s[i] == rest[i - |head|];
        }
      }
      forall i, j | 0 <= i < j < |s|
        ensures idOf(s[i]) != idOf(s[j])
      {
        assert j >= |head| && s[j] == rest[j - |head|];
        if i >= |head| {
          assert s[i] == rest[i - |head|];
        }
      }
    }
  }

  lemma {:induction false} AddedSorted(b: Inventory, a: Inventory, locale: (string, string) -> bool)
    requires Indexed(b) && Indexed(a) && TotalOrder(locale)
    ensures Sorting.SortedBy(Sorting.SortBy(FilterMap(a.ids, AddedBy(b, a)), BySeverity(locale)), BySeverity(locale))
  {
    SeverityIsTransitive(locale);
    var s := FilterMap(a.ids, AddedBy(b, a));
    FoundDistinct(a.ids, AddedBy(b, a), (x: Surface) => x.id);
    forall i, j | 0 <= i < j < |s|
      ensures BySeverity(locale)(s[i], s[j]) || BySeverity(locale)(s[j], s[i])
    {
      PrecedesTellsApart(locale, s[i], s[j]);
    }
    Sorting.SortBySorted(s, BySeverity(locale));
  }

  lemma {:induction false} ChangedSorted(b: Inventory, a: Inventory, locale: (string, string) -> bool)
    requires Indexed(b) && Indexed(a) && TotalOrder(locale)
    ensures Sorting.SortedBy(Sorting.SortBy(FilterMap(a.ids, ChangedBy(b, a)), ByChangedSeverity(locale)), ByChangedSeverity(locale))
  {
    SeverityIsTransitive(locale);
    var s := FilterMap(a.ids, ChangedBy(b, a));
    FoundDistinct(a.ids, ChangedBy(b, a), (c: Change) => c.surface.id);
    forall i, j | 0 <= i < j < |s|
      ensures ByChangedSeverity(locale)(s[i], s[j]) || ByChangedSeverity(locale)(s[j], s[i])
    {
      PrecedesTellsApart(locale, s[i].surface, s[j].surface);
    }
    Sorting.SortBySorted(s, ByChangedSeverity(locale));
  }

  /** The kinds from the worst on; surfaces of one kind go by id. */
  lemma {:induction false} SeverityIs(locale: (string, string) -> bool, a: Surface, b: Surface, i: nat, j: nat)
    requires var worst := [PublicField, PublicWrite, Table, Column, Route, Form, Rest, Tool];
             i < 8 && j < 8 && a.kind == worst[i] && b.kind == worst[j]
    ensures Precedes(locale, a, b) <==> i < j || (i == j && locale(a.id, b.id))
  {
  }

  /** Each list is worst kind first, then by id; what it lists is what the loops found. */
  lemma {:induction false} WorstFirst(before: seq<Surface>, after: seq<Surface>, locale: (string, string) -> bool)
    requires AllKinded(before) && AllKinded(after) && TotalOrder(locale)
    ensures var r, u := Diff(before, after, locale), Unsorted(ById(before), ById(after));
            && Sorting.SortedBy(r.added, BySeverity(locale)) && multiset(r.added) == multiset(u.added)
            && Sorting.SortedBy(r.removed, BySeverity(locale)) && multiset(r.removed) == multiset(u.removed)
            && Sorting.SortedBy(r.changed, ByChangedSeverity(locale)) && multiset(r.changed) == multiset(u.changed)
  {
    ByIdIndexed(before);
    ByIdIndexed(after);
    AddedSorted(ById(before), ById(after), locale);
    AddedSorted(ById(after), ById(before), locale);
    ChangedSorted(ById(before), ById(after), locale);
  }

  // ---------------------------------------------------------------------------
  // The public boundary, and reading the diff backwards
  // ---------------------------------------------------------------------------

  ghost predicate Differs(b: map<string, Surface>, a: map<string, Surface>, id: string) {
    (id in b) != (id in a) || (id in b && b[id].detail != a[id].detail)
  }

  ghost predicate PublicAt(b: map<string, Surface>, a: map<string, Surface>, id: string) {
    || (id in b && (b[id].kind == PublicField || b[id].kind == PublicWrite))
    || (id in a && (a[id].kind == PublicField || a[id].kind == PublicWrite))
  }

  ghost predicate PublicMoves(b: map<string, Surface>, a: map<string, Surface>) {
    exists id :: Differs(b, a, id) && PublicAt(b, a, id)
  }

  lemma {:induction false} AnyPublicMember(r: Radius, s: Surface)
    requires IsPublic(s) && (s in r.added || s in r.removed || exists c :: c in r.changed && c.surface == s)
    ensures AnyPublic(r.added + r.removed + Map(r.changed, SurfaceOf()))
  {
    var all := r.added + r.removed + Map(r.changed, SurfaceOf());
    assert s in all by {
      if c: Change :| c in r.changed && c.surface == s {
        var i :| 0 <= i < |r.changed| && r.changed[i] == c;
        assert all[|r.added| + |r.removed| + i] == s;
      }
    }
  }

  /** The flag is up exactly when some publicly readable or writable surface differs. */
  lemma {:induction false} TouchesPublicIff(before: seq<Surface>, after: seq<Surface>, locale: (string, string) -> bool)
    requires AllKinded(before) && AllKinded(after)
    ensures var b, a := ById(before).at, ById(after).at;
            Diff(before, after, locale).touchesPublic <==> PublicMoves(b, a)
  {
    ByIdIndexed(before);
    ByIdIndexed(after);
    DiffIsExact(before, after, locale);
    AnyPublicIff(ById(before).at, ById(after).at, Diff(before, after, locale));
  }

  lemma {:induction false} AnyPublicIff(b: map<string, Surface>, a: map<string, Surface>, r: Radius)
    requires Exact(b, a, r)
    requires forall k :: k in b ==> b[k].id == k && Kinded(b[k])
    requires forall k :: k in a ==> a[k].id == k && Kinded(a[k])
    ensures AnyPublic(r.added + r.removed + Map(r.changed, SurfaceOf())) <==> PublicMoves(b, a)
  {
    var all := r.added + r.removed + Map(r.changed, SurfaceOf());
    if i: nat :| i < |all| && IsPublic(all[i]) {
      PublicDiffers(b, a, r, i);
      assert Differs(b, a, all[i].id) && PublicAt(b, a, all[i].id);
    }
    if id :| Differs(b, a, id) && PublicAt(b, a, id) {
      DifferingIsListed(b, a, r, id);
    }
  }

  lemma {:induction false} PublicDiffers(b: map<string, Surface>, a: map<string, Surface>, r: Radius, i: nat)
    requires Exact(b, a, r) && i < |r.added + r.removed + Map(r.changed, SurfaceOf())|
    ensures var s := (r.added + r.removed + Map(r.changed, SurfaceOf()))[i];
            Differs(b, a, s.id) && ((s.id in a && a[s.id] == s) || (s.id in b && b[s.id] == s))
  {
    if i < |r.added| {
      assert r.added[i] in r.added;
    } else if i < |r.added| + |r.removed| {
      assert r.removed[i - |r.added|] in r.removed;
    } else {
      assert r.changed[i - |r.added| - |r.removed|] in r.changed;
    }
  }

  lemma {:induction false} DifferingIsListed(b: map<string, Surface>, a: map<string, Surface>, r: Radius, id: string)
    requires Exact(b, a, r) && Differs(b, a, id) && PublicAt(b, a, id)
    requires forall k :: k in b ==> b[k].id == k && Kinded(b[k])
    requires forall k :: k in a ==> a[k].id == k && Kinded(a[k])
    ensures AnyPublic(r.added + r.removed + Map(r.changed, SurfaceOf()))
  {
    if id !in b {
      AnyPublicMember(r, a[id]);
    } else if id !in a {
      AnyPublicMember(r, b[id]);
    } else {
      KindFromId(b[id], a[id]);
      assert Change(a[id], b[id].detail, a[id].detail) in r.changed;
      AnyPublicMember(r, a[id]);
    }
  }

  lemma {:induction false} PublicMovesBackwards(b: map<string, Surface>, a: map<string, Surface>)
    ensures PublicMoves(b, a) <==> PublicMoves(a, b)
  {
    if id :| Differs(b, a, id) && PublicAt(b, a, id) {
      assert Differs(a, b, id) && PublicAt(a, b, id);
    }
    if id :| Differs(a, b, id) && PublicAt(a, b, id) {
      assert Differs(b, a, id) && PublicAt(b, a, id);
    }
  }

  /** A change read backwards. */
  ghost predicate Reverses(c: Change, d: Change) {
    c.surface.id == d.surface.id && c.surface.kind == d.surface.kind && c.before == d.after && c.after == d.before
  }

  function KeyOf(): Change -> (nat, string) {
    (c: Change) => (Rank(c.surface.kind), c.surface.id)
  }

  predicate KeyPrecedes(locale: (string, string) -> bool, a: (nat, string), b: (nat, string)) {
    a.0 < b.0 || (a.0 == b.0 && locale(a.1, b.1))
  }

  function KeyLess(locale: (string, string) -> bool): ((nat, string), (nat, string)) -> bool {
    (a: (nat, string), b: (nat, string)) => KeyPrecedes(locale, a, b)
  }

  lemma {:induction false} KeysSorted(s: seq<Change>, locale: (string, string) -> bool)
    requires Sorting.SortedBy(s, ByChangedSeverity(locale))
    ensures Sorting.SortedBy(Map(s, KeyOf()), KeyLess(locale))
  {
    forall i, j | 0 <= i < j < |s|
      ensures KeyLess(locale)(Map(s, KeyOf())[i], Map(s, KeyOf())[j])
    {
      assert ByChangedSeverity(locale)(s[i], s[j]);
    }
  }

  lemma {:induction false} KeyLessOrders(locale: (string, string) -> bool)
    requires TotalOrder(locale)
    ensures Sorting.Transitive(KeyLess(locale)) && forall k: (nat, string) :: !KeyLess(locale)(k, k)
  {
    forall a: (nat, string), b: (nat, string), c: (nat, string) | KeyPrecedes(locale, a, b) && KeyPrecedes(locale, b, c)
      ensures KeyPrecedes(locale, a, c)
    {
    }
    forall k: (nat, string)
      ensures !KeyPrecedes(locale, k, k)
    {
    }
  }

  /** A changed surface is changed backwards too, under the same key. */
  lemma {:induction false} ChangedBackwards(b: map<string, Surface>, a: map<string, Surface>, r: Radius, back: Radius, i: nat)
    requires Exact(b, a, r) && Exact(a, b, back) && i < |r.changed|
    requires forall k :: k in b ==> b[k].id == k && Kinded(b[k])
    requires forall k :: k in a ==> a[k].id == k && Kinded(a[k])
    ensures exists j :: 0 <= j < |back.changed| && Reverses(r.changed[i], back.changed[j])
    ensures Map(r.changed, KeyOf())[i] in Map(back.changed, KeyOf())
  {
    var c := r.changed[i];
    assert c in r.changed;
    var id := c.surface.id;
    KindFromId(b[id], a[id]);
    var d := Change(b[id], c.after, c.before);
    assert d in back.changed;
    var j :| 0 <= j < |back.changed| && back.changed[j] == d;
    assert Reverses(r.changed[i], back.changed[j]);
    assert Map(back.changed, KeyOf())[j] == Map(r.changed, KeyOf())[i];
  }

  lemma {:induction false} KeysBackwards(b: map<string, Surface>, a: map<string, Surface>, r: Radius, back: Radius)
    requires Exact(b, a, r) && Exact(a, b, back)
    requires forall k :: k in b ==> b[k].id == k && Kinded(b[k])
    requires forall k :: k in a ==> a[k].id == k && Kinded(a[k])
    ensures forall x :: x in Map(r.changed, KeyOf()) ==> x in Map(back.changed, KeyOf())
  {
    forall x | x in Map(r.changed, KeyOf())
      ensures x in Map(back.changed, KeyOf())
    {
      var i :| 0 <= i < |r.changed| && Map(r.changed, KeyOf())[i] == x;
      ChangedBackwards(b, a, r, back, i);
    }
  }

  /**
   * Read backwards, what was added is removed and what was removed is added, each change is reversed in
   * its place, as many surfaces are untouched, and the public boundary is touched just the same.
   */
  lemma {:induction false} SwapReverses(before: seq<Surface>, after: seq<Surface>, locale: (string, string) -> bool)
    requires AllKinded(before) && AllKinded(after) && TotalOrder(locale)
    ensures var r, back := Diff(before, after, locale), Diff(after, before, locale);
            && back.added == r.removed && back.removed == r.added
            && back.untouched == r.untouched && back.touchesPublic == r.touchesPublic
            && |back.changed| == |r.changed|
            && forall i :: 0 <= i < |r.changed| ==> Reverses(r.changed[i], back.changed[i])
  {
    BackwardsLists(before, after, locale);
    BackwardsFlag(before, after, locale);
    BackwardsChanges(before, after, locale);
    EverySurfaceCounted(before, after, locale);
    EverySurfaceCounted(after, before, locale);
  }

  lemma {:induction false} BackwardsLists(before: seq<Surface>, after: seq<Surface>, locale: (string, string) -> bool)
    ensures Diff(after, before, locale).added == Diff(before, after, locale).removed
    ensures Diff(after, before, locale).removed == Diff(before, after, locale).added
  {
  }

  lemma {:induction false} BackwardsFlag(before: seq<Surface>, after: seq<Surface>, locale: (string, string) -> bool)
    requires AllKinded(before) && AllKinded(after)
    ensures Diff(after, before, locale).touchesPublic == Diff(before, after, locale).touchesPublic
  {
    TouchesPublicIff(before, after, locale);
    TouchesPublicIff(after, before, locale);
    PublicMovesBackwards(ById(before).at, ById(after).at);
  }

  lemma {:induction false} BackwardsChanges(before: seq<Surface>, after: seq<Surface>, locale: (string, string) -> bool)
    requires AllKinded(before) && AllKinded(after) && TotalOrder(locale)
    ensures var r, back := Diff(before, after, locale), Diff(after, before, locale);
            && |back.changed| == |r.changed|
            && forall i :: 0 <= i < |r.changed| ==> Reverses(r.changed[i], back.changed[i])
  {
    ByIdIndexed(before);
    ByIdIndexed(after);
    DiffIsExact(before, after, locale);
    DiffIsExact(after, before, locale);
    WorstFirst(before, after, locale);
    WorstFirst(after, before, locale);
    SameChanges(ById(before).at, ById(after).at, Diff(before, after, locale), Diff(after, before, locale), locale);
  }

  lemma {:induction false} SameChanges(b: map<string, Surface>, a: map<string, Surface>, r: Radius, back: Radius, locale: (string, string) -> bool)
    requires Exact(b, a, r) && Exact(a, b, back) && TotalOrder(locale)
    requires forall k :: k in b ==> b[k].id == k && Kinded(b[k])
    requires forall k :: k in a ==> a[k].id == k && Kinded(a[k])
    requires Sorting.SortedBy(r.changed, ByChangedSeverity(locale)) && Sorting.SortedBy(back.changed, ByChangedSeverity(locale))
    ensures |back.changed| == |r.changed| && forall i :: 0 <= i < |r.changed| ==> Reverses(r.changed[i], back.changed[i])
  {
    KeysSorted(r.changed, locale);
    KeysSorted(back.changed, locale);
    KeyLessOrders(locale);
    KeysBackwards(b, a, r, back);
    KeysBackwards(a, b, back, r);
    Sorting.SortedSame(Map(r.changed, KeyOf()), Map(back.changed, KeyOf()), KeyLess(locale));
    forall i | 0 <= i < |r.changed|
      ensures Reverses(r.changed[i], back.changed[i])
    {
      assert r.changed[i] in r.changed && back.changed[i] in back.changed;
      assert Map(r.changed, KeyOf())[i] == Map(back.changed, KeyOf())[i];
      KindFromId(b[r.changed[i].surface.id], a[r.changed[i].surface.id]);
    }
  }

  // ---------------------------------------------------------------------------
  // The reply to one op
  // ---------------------------------------------------------------------------

  datatype Coverage = Modelled | Presentation | Unmodelled

  /** `changesBuiltApp` is `None` where the inventory makes no claim. */
  datatype Effect = Effect(coverage: Coverage, changesBuiltApp: Option<bool>, added: seq<string>, removed: seq<string>,
                           changed: seq<string>, omitted: nat, touchesPublic: bool)

  const MAX_LABELS: nat := 5

  const PRESENTATION_OPS: set<string> :=
    {"page.setBlockOrder", "page.setBlockVariant", "page.setBlockFields", "page.setBlockEditable",
     "page.setBlockCreatable", "theme.set"}

  const MODELLED_OP_PREFIXES: seq<string> := ["data.", "page.", "portals.", "provenance."]

  function CoverageOf(op: Option<string>): Coverage {
    if op.None? || op.value == "" then Unmodelled
    else if op.value in PRESENTATION_OPS then Presentation
    else if exists i :: 0 <= i < |MODELLED_OP_PREFIXES| && MODELLED_OP_PREFIXES[i] <= op.value then Modelled
    else Unmodelled
  }

  /** What the inventory says of an op: nothing but looks for six, a layer it covers for four families, and otherwise nothing. */
  lemma {:induction false} CoverageIs(op: string)
    ensures CoverageOf(None) == Unmodelled && CoverageOf(Some("")) == Unmodelled
    ensures CoverageOf(Some(op)) == Presentation <==>
              || op == "page.setBlockOrder" || op == "page.setBlockVariant" || op == "page.setBlockFields"
              || op == "page.setBlockEditable" || op == "page.setBlockCreatable" || op == "theme.set"
    ensures CoverageOf(Some(op)) == Modelled <==>
              CoverageOf(Some(op)) != Presentation && ("data." <= op || "page." <= op || "portals." <= op || "provenance." <= op)
  {
    assert MODELLED_OP_PREFIXES[0] == "data." && MODELLED_OP_PREFIXES[1] == "page." && MODELLED_OP_PREFIXES[2] == "portals."
           && MODELLED_OP_PREFIXES[3] == "provenance.";
  }

  function Over(n: nat): nat {
    if n > MAX_LABELS then n - MAX_LABELS else 0
  }

  function Captions(surfaces: seq<Surface>): seq<string> {
    Map(if |surfaces| > MAX_LABELS then surfaces[..MAX_LABELS] else surfaces, (s: Surface) => s.caption)
  }

  function Listed(r: Radius): seq<Surface> {
    r.added + r.removed + Map(r.changed, SurfaceOf())
  }

  function EffectOf(r: Radius, op: Option<string>): Effect {
    var changed := Map(r.changed, SurfaceOf());
    var moved := |Listed(r)| > 0;
    var coverage := CoverageOf(op);
    if coverage != Modelled && !moved then Effect(coverage, None, [], [], [], 0, false)
    else Effect(coverage, Some(moved), Captions(r.added), Captions(r.removed), Captions(changed),
                Over(|r.added|) + Over(|r.removed|) + Over(|changed|), r.touchesPublic)
  }

  function OpEffect(before: seq<Surface>, after: seq<Surface>, op: Option<string>, locale: (string, string) -> bool): Effect {
    EffectOf(Diff(before, after, locale), op)
  }

  lemma {:induction false} CaptionsCounted(r: Radius, op: Option<string>)
    requires r.touchesPublic == AnyPublic(Listed(r))
    ensures var e := EffectOf(r, op);
            && |e.added| + |e.removed| + |e.changed| + e.omitted == |r.added| + |r.removed| + |r.changed|
            && |e.added| <= MAX_LABELS && |e.removed| <= MAX_LABELS && |e.changed| <= MAX_LABELS
            && e.touchesPublic == r.touchesPublic
  {
  }

  /** Nothing is lost to the cap: the captions shown and the number omitted make up the diff, and the public boundary is always told. */
  lemma {:induction false} EffectAccounts(before: seq<Surface>, after: seq<Surface>, op: Option<string>, locale: (string, string) -> bool)
    requires AllKinded(before) && AllKinded(after)
    ensures var e, r := OpEffect(before, after, op, locale), Diff(before, after, locale);
            && |e.added| + |e.removed| + |e.changed| + e.omitted == |r.added| + |r.removed| + |r.changed|
            && |e.added| <= MAX_LABELS && |e.removed| <= MAX_LABELS && |e.changed| <= MAX_LABELS
            && e.touchesPublic == PublicMoves(ById(before).at, ById(after).at)
  {
    TouchesPublicIff(before, after, locale);
    CaptionsCounted(Diff(before, after, locale), op);
  }

  /** The first five captions of a list, or all of a shorter one. */
  ghost predicate ShowsFirst(shown: seq<string>, surfaces: seq<Surface>) {
    && |shown| == (if |surfaces| <= 5 then |surfaces| else 5)
    && forall i :: 0 <= i < |shown| ==> shown[i] == surfaces[i].caption
  }

  /**
   * What the reply shows: for each list its first five captions, worst first, and as many omitted as the lists hold
   * beyond five each; nothing of the lists when nothing moved.
   */
  lemma {:induction false} EffectShows(before: seq<Surface>, after: seq<Surface>, op: Option<string>, locale: (string, string) -> bool)
    ensures ShowsLists(OpEffect(before, after, op, locale), Diff(before, after, locale), op)
  {
    ListsShown(Diff(before, after, locale), op);
  }

  ghost predicate ShowsLists(e: Effect, r: Radius, op: Option<string>) {
    && e.coverage == CoverageOf(op)
    && ShowsFirst(e.added, r.added) && ShowsFirst(e.removed, r.removed)
    && |e.changed| == (if |r.changed| <= 5 then |r.changed| else 5)
    && (forall i :: 0 <= i < |e.changed| ==> e.changed[i] == r.changed[i].surface.caption)
    && e.omitted == (|r.added| - |e.added|) + (|r.removed| - |e.removed|) + (|r.changed| - |e.changed|)
  }

  lemma {:induction false} ListsShown(r: Radius, op: Option<string>)
    ensures ShowsLists(EffectOf(r, op), r, op)
  {
    CaptionsFirst(r.added);
    CaptionsFirst(r.removed);
    CaptionsFirst(Map(r.changed, SurfaceOf()));
  }

  lemma {:induction false} CaptionsFirst(surfaces: seq<Surface>)
    ensures ShowsFirst(Captions(surfaces), surfaces)
    ensures Over(|surfaces|) == |surfaces| - |Captions(surfaces)|
  {}

  ghost predicate Differ(b: map<string, Surface>, a: map<string, Surface>) {
    exists id :: Differs(b, a, id)
  }

  /**
   * The reply says the built app changes exactly when the inventories differ, that it does not exactly
   * when they agree under an op whose layer they cover, and says nothing exactly otherwise.
   */
  lemma {:induction false} EffectTellsTheTruth(before: seq<Surface>, after: seq<Surface>, op: Option<string>, locale: (string, string) -> bool)
    requires AllKinded(before) && AllKinded(after)
    ensures OpEffect(before, after, op, locale).changesBuiltApp
            == if Differ(ById(before).at, ById(after).at) then Some(true)
               else if CoverageOf(op) == Modelled then Some(false) else None
  {
    ByIdIndexed(before);
    ByIdIndexed(after);
    DiffIsExact(before, after, locale);
    MovedIff(ById(before).at, ById(after).at, Diff(before, after, locale));
  }

  lemma {:induction false} MovedIff(b: map<string, Surface>, a: map<string, Surface>, r: Radius)
    requires Exact(b, a, r)
    requires forall k :: k in b ==> b[k].id == k
    requires forall k :: k in a ==> a[k].id == k
    ensures |Listed(r)| > 0 <==> Differ(b, a)
  {
    if r.added != [] {
      assert r.added[0] in r.added;
      assert Differs(b, a, r.added[0].id);
    } else if r.removed != [] {
      assert r.removed[0] in r.removed;
      assert Differs(b, a, r.removed[0].id);
    } else if r.changed != [] {
      assert r.changed[0] in r.changed;
      assert Differs(b, a, r.changed[0].surface.id);
    }
    if id :| Differs(b, a, id) {
      if id !in b {
        assert a[id] in r.added;
      } else if id !in a {
        assert b[id] in r.removed;
      } else {
        assert Change(a[id], b[id].detail, a[id].detail) in r.changed;
      }
    }
  }
}
