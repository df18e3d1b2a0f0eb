/**
 * Demo data: sample rows a project can load and remove again, told from the user's own by a manifest
 * written after the rows.
 * Models seedDemoData, recordSeededRows and clearDemoData of apps/web/app/sprout.server.ts, over
 * packages/features/src/demo-mode/seeder.ts and manifest.ts.
 */
module DemoData {
  import opened Collections

  /** What a primary key holds; the manifest tracks strings only. */
  datatype Id = Text(text: string) | Number(number: int)

  datatype Key = Key(resource: string, id: Id)

  datatype Origin = Seeded | Bundled | Users

  /** One resource's ids, in the order they were made. */
  datatype Created = Created(resource: string, ids: seq<string>)

  type Manifest = map<string, seq<string>>

  // ---------------------------------------------------------------------------
  // The manifest
  // ---------------------------------------------------------------------------

  ghost function Claimed(m: Manifest): set<Key> {
    set r, id | r in m && id in m[r] :: Key(r, Text(id))
  }

  ghost function CreatedKeys(created: seq<Created>): set<Key> {
    set c, id | c in created && id in c.ids :: Key(c.resource, Text(id))
  }

  /** The ids not there yet, in order, after those that are. */
  function MergeIds(known: seq<string>, ids: seq<string>): seq<string> {
    if ids == [] then known
    else
      var before := MergeIds(known, ids[..|ids| - 1]);
      if ids[|ids| - 1] in before then before else before + [ids[|ids| - 1]]
  }

  function KnownIds(m: Manifest, resource: string): seq<string> {
    if resource in m then m[resource] else []
  }

  function Merged(m: Manifest, created: seq<Created>): Manifest {
    if created == [] then m
    else
      var before, c := Merged(m, created[..|created| - 1]), created[|created| - 1];
      if c.ids == [] then before else before[c.resource := MergeIds(KnownIds(before, c.resource), c.ids)]
  }

  method MergeManifest(m: Manifest, created: seq<Created>) returns (rows: Manifest)
    ensures rows == Merged(m, created)
  {
    rows := m;
    for i := 0 to |created|
      invariant rows == Merged(m, created[..i])
    {
      assert created[..i + 1][..i] == created[..i];
      var c := created[i];
      if c.ids == [] {
        continue;
      }
      var next := KnownIds(rows, c.resource);
      ghost var known := next;
      for k := 0 to |c.ids|
        invariant next == MergeIds(known, c.ids[..k])
      {
        assert c.ids[..k + 1][..k] == c.ids[..k];
        if c.ids[k] in next {
          continue;
        }
        next := next + [c.ids[k]];
      }
      assert c.ids[..|c.ids|] == c.ids;
      rows := rows[c.resource := next];
    }
    assert created[..|created|] == created;
  }

  lemma {:induction false} MergeIdsHolds(known: seq<string>, ids: seq<string>)
    ensures known <= MergeIds(known, ids)
    ensures forall id :: id in MergeIds(known, ids) <==> id in known || id in ids
    ensures Distinct(known) ==> Distinct(MergeIds(known, ids))
  {
    if ids != [] {
      var n := |ids| - 1;
      MergeIdsHolds(known, ids[..n]);
      assert ids == ids[..n] + [ids[n]];
      assert forall id :: id in ids <==> id in ids[..n] || id == ids[n];
    }
  }

  /** Merging claims exactly what was claimed and what was created, and keeps every earlier record in place. */
  lemma {:induction false} MergeClaims(m: Manifest, created: seq<Created>)
    ensures Claimed(Merged(m, created)) == Claimed(m) + CreatedKeys(created)
    ensures forall r :: r in m ==> r in Merged(m, created) && m[r] <= Merged(m, created)[r]
  {
    if created != [] {
      var n := |created| - 1;
      MergeClaims(m, created[..n]);
      MergeOne(Merged(m, created[..n]), created[n]);
      CreatedKeysSnoc(created);
    }
  }

  lemma {:induction false} CreatedKeysSnoc(created: seq<Created>)
    requires created != []
    ensures CreatedKeys(created) == CreatedKeys(created[..|created| - 1]) + CreatedKeys([created[|created| - 1]])
  {
    var n := |created| - 1;
    assert created == created[..n] + [created[n]];
    assert forall c :: c in created <==> c in created[..n] || c in [created[n]];
  }

  lemma {:induction false} MergeOne(m: Manifest, c: Created)
    ensures var after := if c.ids == [] then m else m[c.resource := MergeIds(KnownIds(m, c.resource), c.ids)];
            && Claimed(after) == Claimed(m) + CreatedKeys([c])
            && (forall r :: r in m ==> r in after && m[r] <= after[r])
  {
    MergeIdsHolds(KnownIds(m, c.resource), c.ids);
    assert c in [c];
    var after := if c.ids == [] then m else m[c.resource := MergeIds(KnownIds(m, c.resource), c.ids)];
    forall k: Key
      ensures k in Claimed(after) <==> k in Claimed(m) + CreatedKeys([c])
    {
      if k.id.Text? {
        assert k in CreatedKeys([c]) <==> k.resource == c.resource && k.id.text in c.ids;
        assert k in Claimed(m) <==> k.resource in m && k.id.text in m[k.resource];
        assert k in Claimed(after) <==> k.resource in after && k.id.text in after[k.resource];
      }
    }
  }

  // ---------------------------------------------------------------------------
  // One process, uninterrupted
  // ---------------------------------------------------------------------------

  ghost predicate Occupied(rows: map<Key, Origin>, resource: string) {
    exists k :: k in rows && k.resource == resource
  }

  /** `typeof id === 'string'`. */
  function AsText(): Id -> Option<string> {
    (id: Id) => if id.Text? then Some(id.text) else None
  }

  /** Rows of one resource, made one at a time. */
  function WithRows(rows: map<Key, Origin>, resource: string, ids: seq<Id>): map<Key, Origin> {
    if ids == [] then rows else WithRows(rows, resource, ids[..|ids| - 1])[Key(resource, ids[|ids| - 1]) := Seeded]
  }

  /** What the generic seeder leaves: each resource still empty when its turn comes gets its rows. */
  ghost function SeededRows(rows: map<Key, Origin>, order: seq<string>, ids: map<string, seq<Id>>): map<Key, Origin> {
    if order == [] then rows
    else
      var before, r := SeededRows(rows, order[..|order| - 1], ids), order[|order| - 1];
      if r !in ids || Occupied(before, r) then before else WithRows(before, r, ids[r])
  }

  ghost function SeededIds(rows: map<Key, Origin>, order: seq<string>, ids: map<string, seq<Id>>): seq<Created> {
    if order == [] then []
    else
      var r := order[|order| - 1];
      SeededIds(rows, order[..|order| - 1], ids)
      + if r !in ids || ids[r] == [] || Occupied(SeededRows(rows, order[..|order| - 1], ids), r) then []
        else [Created(r, FilterMap(ids[r], AsText()))]
  }

  ghost function WithBundles(rows: map<Key, Origin>, bundles: set<Key>): map<Key, Origin> {
    map k | k in rows.Keys + bundles :: if k in rows then rows[k] else Bundled
  }

  class Project {
    var rows: map<Key, Origin>
    var manifest: Manifest

    constructor (initial: map<Key, Origin>)
      ensures rows == initial && manifest == map[]
    {
      rows, manifest := initial, map[];
    }

    /** The generic seeder; `ids` are the keys the store generates. */
    method GenericSeed(order: seq<string>, ids: map<string, seq<Id>>) returns (created: seq<Created>)
      modifies this`rows
      ensures rows == SeededRows(old(rows), order, ids)
      ensures created == SeededIds(old(rows), order, ids)
    {
      created := [];
      for i := 0 to |order|
        invariant rows == SeededRows(old(rows), order[..i], ids)
        invariant created == SeededIds(old(rows), order[..i], ids)
      {
        assert order[..i + 1][..i] == order[..i];
        var r := order[i];
        if r !in ids {
          continue;
        }
        var occupied := HasRows(r);
        if occupied {
          continue;
        }
        CreateRows(r, ids[r]);
        if ids[r] != [] {
          created := created + [Created(r, FilterMap(ids[r], AsText()))];
        }
      }
      assert order[..|order|] == order;
    }

    method HasRows(resource: string) returns (found: bool)
      ensures found <==> Occupied(rows, resource)
    {
      found := exists k | k in rows :: k.resource == resource;
    }

    method CreateRows(resource: string, ids: seq<Id>)
      modifies this`rows
      ensures rows == WithRows(old(rows), resource, ids)
    {
      for i := 0 to |ids|
        invariant rows == WithRows(old(rows), resource, ids[..i])
      {
        assert ids[..i + 1][..i] == ids[..i];
        rows := rows[Key(resource, ids[i]) := Seeded];
      }
      assert ids[..|ids|] == ids;
    }

    /** seedDemoData: bundle rows, generic rows, and only then the manifest. */
    method SeedDemoData(order: seq<string>, bundles: set<Key>, ids: map<string, seq<Id>>)
      modifies this
      ensures rows == SeededRows(WithBundles(old(rows), bundles), order, ids)
      ensures manifest == Merged(old(manifest), SeededIds(WithBundles(old(rows), bundles), order, ids))
    {
      rows := map k | k in rows.Keys + bundles :: if k in rows then rows[k] else Bundled;
      assert rows == WithBundles(old(rows), bundles);
      var created := GenericSeed(order, ids);
      manifest := MergeManifest(manifest, created);
    }

    /**
     * clearDemoData: what the manifest lists, in the given order, and then the manifest itself. `entries`
     * are the manifest's resources in the order it lists them; ids under a resource the registry no
     * longer has count as missing.
     */
    method ClearDemoData(order: seq<string>, entries: seq<string>) returns (deleted: nat, missing: nat)
      requires Distinct(entries) && forall r :: r in manifest <==> r in entries
      modifies this
      ensures rows == Cleared(old(rows), old(manifest), order) && manifest == map[]
      ensures deleted == |old(rows)| - |rows|
      ensures Distinct(order) ==> deleted + missing == Total(old(manifest), entries)
    {
      deleted := 0;
      missing := CountUnreachable(order, entries);
      for i := 0 to |order|
        invariant rows == Cleared(old(rows), manifest, order[..i]) && manifest == old(manifest)
        invariant deleted == |old(rows)| - |rows|
        invariant deleted + missing == Total(manifest, Filter(entries, NotIn(order))) + Total(manifest, order[..i])
      {
        assert order[..i + 1][..i] == order[..i];
        TotalStep(manifest, order, i);
        var d, m := DeleteAll(order[i], KnownIds(manifest, order[i]));
        deleted, missing := deleted + d, missing + m;
      }
      assert order[..|order|] == order;
      if Distinct(order) {
        TotalSplits(manifest, entries, order);
      }
      manifest := map[];
    }

    method CountUnreachable(order: seq<string>, entries: seq<string>) returns (missing: nat)
      ensures missing == Total(manifest, Filter(entries, NotIn(order)))
    {
      missing := 0;
      for i := 0 to |entries|
        invariant missing == Total(manifest, Filter(entries[..i], NotIn(order)))
      {
        UnreachableStep(manifest, order, entries, i);
        if entries[i] !in order {
          missing := missing + |KnownIds(manifest, entries[i])|;
        }
      }
      assert entries[..|entries|] == entries;
    }

    method DeleteAll(resource: string, ids: seq<string>) returns (deleted: nat, missing: nat)
      modifies this`rows
      ensures rows == Without(old(rows), resource, ids)
      ensures deleted == |old(rows)| - |rows| && deleted + missing == |ids|
    {
      deleted, missing := 0, 0;
      for i := 0 to |ids|
        invariant rows == Without(old(rows), resource, ids[..i])
        invariant deleted == |old(rows)| - |rows| && deleted + missing == i
      {
        assert ids[..i + 1][..i] == ids[..i];
        if Key(resource, Text(ids[i])) in rows {
          deleted := deleted + 1;
        } else {
          missing := missing + 1;
        }
        rows := rows - {Key(resource, Text(ids[i]))};
      }
      assert ids[..|ids|] == ids;
    }
  }

  // --- every listed id is counted ---

  /** How many ids the manifest lists under some resources. */
  function Total(m: Manifest, resources: seq<string>): nat {
    if resources == [] then 0 else |KnownIds(m, resources[0])| + Total(m, resources[1..])
  }

  function NotIn(order: seq<string>): string -> bool { (r: string) => r !in order }

  lemma {:induction false} TotalAppend(m: Manifest, a: seq<string>, b: seq<string>)
    ensures Total(m, a + b) == Total(m, a) + Total(m, b)
  {
    if a == [] {
      assert a + b == b;
    } else {
      assert (a + b)[1..] == a[1..] + b;
      TotalAppend(m, a[1..], b);
    }
  }

  lemma {:induction false} TotalOne(m: Manifest, r: string)
    ensures Total(m, [r]) == |KnownIds(m, r)|
  {
    assert [r][1..] == [];
  }

  lemma {:induction false} TotalStep(m: Manifest, resources: seq<string>, i: nat)
    requires i < |resources|
    ensures Total(m, resources[..i + 1]) == Total(m, resources[..i]) + |KnownIds(m, resources[i])|
  {
    assert resources[..i + 1] == resources[..i] + [resources[i]];
    TotalAppend(m, resources[..i], [resources[i]]);
    TotalOne(m, resources[i]);
  }

  lemma {:induction false} UnreachableStep(m: Manifest, order: seq<string>, entries: seq<string>, i: nat)
    requires i < |entries|
    ensures Total(m, Filter(entries[..i + 1], NotIn(order)))
            == Total(m, Filter(entries[..i], NotIn(order))) + if entries[i] in order then 0 else |KnownIds(m, entries[i])|
  {
    assert entries[..i + 1] == entries[..i] + [entries[i]];
    FilterAppend(entries[..i], [entries[i]], NotIn(order));
    TotalAppend(m, Filter(entries[..i], NotIn(order)), Filter([entries[i]], NotIn(order)));
    assert [entries[i]][1..] == [];
    TotalOne(m, entries[i]);
  }

  /** One more resource deleted from is one fewer left over. */
  lemma {:induction false} OneFewerLeft(m: Manifest, entries: seq<string>, order: seq<string>, r: string)
    requires Distinct(entries) && r !in order
    ensures Total(m, Filter(entries, NotIn(order)))
            == Total(m, Filter(entries, NotIn(order + [r]))) + if r in entries then |KnownIds(m, r)| else 0
  {
    if entries != [] {
      var first, rest := entries[0], entries[1..];
      assert forall x :: x in entries <==> x == first || x in rest;
      assert first !in rest;
      OneFewerLeft(m, rest, order, r);
      assert first in order + [r] <==> first in order || first == r;
      if NotIn(order)(first) {
        TotalAppend(m, [first], Filter(rest, NotIn(order)));
        TotalOne(m, first);
      }
      if NotIn(order + [r])(first) {
        TotalAppend(m, [first], Filter(rest, NotIn(order + [r])));
      }
    }
  }

  lemma {:induction false} NothingLeftOut(entries: seq<string>)
    ensures Filter(entries, NotIn([])) == entries
  {
    if entries != [] {
      NothingLeftOut(entries[1..]);
    }
  }

  /** The ids under resources still there and the ids under those gone are all the ids listed. */
  lemma {:induction false} TotalSplits(m: Manifest, entries: seq<string>, order: seq<string>)
    requires Distinct(entries) && Distinct(order) && forall r :: r in m ==> r in entries
    ensures Total(m, Filter(entries, NotIn(order))) + Total(m, order) == Total(m, entries)
  {
    if order == [] {
      NothingLeftOut(entries);
    } else {
      var n := |order| - 1;
      var r := order[n];
      TotalSplits(m, entries, order[..n]);
      TotalStep(m, order, n);
      assert order[..n + 1] == order == order[..n] + [r];
      OneFewerLeft(m, entries, order[..n], r);
    }
  }

  /** The rows less the listed ones of a resource, removed one at a time. */
  function Without(rows: map<Key, Origin>, resource: string, ids: seq<string>): map<Key, Origin> {
    if ids == [] then rows else Without(rows, resource, ids[..|ids| - 1]) - {Key(resource, Text(ids[|ids| - 1]))}
  }

  function Cleared(rows: map<Key, Origin>, m: Manifest, order: seq<string>): map<Key, Origin> {
    if order == [] then rows
    else Without(Cleared(rows, m, order[..|order| - 1]), order[|order| - 1], KnownIds(m, order[|order| - 1]))
  }

  lemma {:induction false} WithoutSpec(rows: map<Key, Origin>, resource: string, ids: seq<string>)
    ensures forall k :: k in Without(rows, resource, ids) <==>
              k in rows && !(k.resource == resource && k.id.Text? && k.id.text in ids)
    ensures forall k :: k in Without(rows, resource, ids) ==> Without(rows, resource, ids)[k] == rows[k]
  {
    if ids != [] {
      var n := |ids| - 1;
      WithoutSpec(rows, resource, ids[..n]);
      assert ids == ids[..n] + [ids[n]];
      assert forall id :: id in ids <==> id in ids[..n] || id == ids[n];
    }
  }

  /** A clear removes exactly the rows listed under the resources the registry still has. */
  lemma {:induction false} ClearedSpec(rows: map<Key, Origin>, m: Manifest, order: seq<string>)
    ensures forall k :: k in Cleared(rows, m, order) <==> k in rows && !(k.resource in order && k in Claimed(m))
    ensures forall k :: k in Cleared(rows, m, order) ==> Cleared(rows, m, order)[k] == rows[k]
  {
    if order != [] {
      var n := |order| - 1;
      ClearedSpec(rows, m, order[..n]);
      WithoutSpec(Cleared(rows, m, order[..n]), order[n], KnownIds(m, order[n]));
      assert order == order[..n] + [order[n]];
      assert forall r :: r in order <==> r in order[..n] || r == order[n];
      forall k: Key
        ensures k in Claimed(m) <==> k.id.Text? && k.id.text in KnownIds(m, k.resource)
      {
      }
    }
  }

  /**
   * The manifest goes away whole: a claimed row is left behind, and nothing knows of it any more, exactly
   * when one stands under a resource the registry no longer has.
   */
  lemma {:induction false} ClearForgetsIff(rows: map<Key, Origin>, m: Manifest, order: seq<string>)
    ensures (exists k :: k in Claimed(m) && k in Cleared(rows, m, order))
            <==> exists k :: k in Claimed(m) && k in rows && k.resource !in order
  {
    ClearedSpec(rows, m, order);
  }

  // --- what a seed and a clear leave ---

  lemma {:induction false} WithRowsSpec(rows: map<Key, Origin>, r: string, ids: seq<Id>)
    requires !Occupied(rows, r)
    ensures forall k :: k in WithRows(rows, r, ids) <==> k in rows || (k.resource == r && k.id in ids)
    ensures forall k :: k in rows ==> WithRows(rows, r, ids)[k] == rows[k]
  {
    if ids != [] {
      var n := |ids| - 1;
      WithRowsSpec(rows, r, ids[..n]);
      assert ids == ids[..n] + [ids[n]];
      assert forall id :: id in ids <==> id in ids[..n] || id == ids[n];
    }
  }

  lemma {:induction false} TextIds(ids: seq<Id>, id: string)
    ensures id in FilterMap(ids, AsText()) <==> Text(id) in ids
  {
    if ids != [] {
      TextIds(ids[1..], id);
      assert ids == [ids[0]] + ids[1..];
    }
  }

  /** The rows a generic seed adds: those it reports, and those whose keys are no strings. */
  lemma {:induction false} SeedReports(rows: map<Key, Origin>, order: seq<string>, ids: map<string, seq<Id>>)
    ensures var after, reported := SeededRows(rows, order, ids), CreatedKeys(SeededIds(rows, order, ids));
            && rows.Keys <= after.Keys && (forall k :: k in rows ==> after[k] == rows[k])
            && (forall k :: k in after && k !in rows ==> k.resource in order)
            && (forall k :: k in reported <==> k in after && k !in rows && k.id.Text?)
  {
    if order == [] {
    } else {
      var n := |order| - 1;
      SeedReports(rows, order[..n], ids);
      var before, r := SeededRows(rows, order[..n], ids), order[n];
      assert order == order[..n] + [r];
      assert forall x :: x in order <==> x in order[..n] || x == r;
      if r in ids && ids[r] != [] && !Occupied(before, r) {
        WithRowsSpec(before, r, ids[r]);
        ReportStep(SeededIds(rows, order[..n], ids), r, ids[r]);
      }
    }
  }

  /**
   * A seed, row by row: a resource that is registered and has no row yet gets every generated key as a sample row,
   * whichever turn it has; one that has rows gets none; nothing else is added and no row there is changed.
   */
  lemma {:induction false} SeedIsExact(rows: map<Key, Origin>, order: seq<string>, ids: map<string, seq<Id>>)
    requires Distinct(order)
    ensures var after := SeededRows(rows, order, ids);
            && (forall k :: k in after <==>
                  || k in rows
                  || (k.resource in order && k.resource in ids && k.id in ids[k.resource] && forall l :: l in rows ==> l.resource != k.resource))
            && (forall k :: k in after ==> after[k] == if k in rows then rows[k] else Seeded)
  {
    if order != [] {
      var n := |order| - 1;
      var before, r := SeededRows(rows, order[..n], ids), order[n];
      assert Distinct(order[..n]) && r !in order[..n];
      assert order == order[..n] + [r];
      assert forall x :: x in order <==> x in order[..n] || x == r;
      SeedIsExact(rows, order[..n], ids);
      assert Occupied(before, r) <==> exists l :: l in rows && l.resource == r by {
        if k :| k in before && k.resource == r {
          assert k in rows;
        }
        if l :| l in rows && l.resource == r {
          assert l in before;
        }
      }
      if r in ids && !Occupied(before, r) {
        SeedsOne(before, r, ids[r]);
      }
    }
  }

  lemma {:induction false} SeedsOne(rows: map<Key, Origin>, r: string, ids: seq<Id>)
    requires !Occupied(rows, r)
    ensures var after := WithRows(rows, r, ids);
            && (forall k :: k in after <==> k in rows || (k.resource == r && k.id in ids))
            && (forall k :: k in after ==> after[k] == if k in rows then rows[k] else Seeded)
  {
    WithRowsSpec(rows, r, ids);
    if ids != [] {
      var n := |ids| - 1;
      SeedsOne(rows, r, ids[..n]);
      WithRowsSpec(rows, r, ids[..n]);
    }
  }

  /** Bundles add their rows where there are none under the same key, and change nothing. */
  lemma {:induction false} BundlesAdd(rows: map<Key, Origin>, bundles: set<Key>)
    ensures var after := WithBundles(rows, bundles);
            && (forall k :: k in after <==> k in rows || k in bundles)
            && (forall k :: k in after ==> after[k] == if k in rows then rows[k] else Bundled)
  {
  }

  /** A resource a seed can fill has a row afterwards. */
  lemma {:induction false} Filled(rows: map<Key, Origin>, order: seq<string>, ids: map<string, seq<Id>>, r: string) returns (l: Key)
    requires Distinct(order) && r in order && r in ids && ids[r] != []
    ensures l in SeededRows(rows, order, ids) && l.resource == r
  {
    SeedIsExact(rows, order, ids);
    if k :| k in rows && k.resource == r {
      l := k;
    } else {
      l := Key(r, ids[r][0]);
    }
  }

  /** Loading twice is loading once: whatever keys a second load would generate, every resource the first could fill has rows by then. */
  lemma {:induction false} SeedTwiceIsOnce(rows: map<Key, Origin>, bundles: set<Key>, order: seq<string>, ids: map<string, seq<Id>>,
                                           again: map<string, seq<Id>>)
    requires Distinct(order)
    requires forall r :: r in order && r in again ==> r in ids && ids[r] != []
    ensures var once := SeededRows(WithBundles(rows, bundles), order, ids);
            && SeededRows(WithBundles(once, bundles), order, again) == once
            && CreatedKeys(SeededIds(WithBundles(once, bundles), order, again)) == {}
  {
    var start := WithBundles(rows, bundles);
    var once := SeededRows(start, order, ids);
    SeedIsExact(start, order, ids);
    assert WithBundles(once, bundles) == once by {
      forall k | k in bundles
        ensures k in once
      {
        assert k in start;
      }
    }
    var twice := SeededRows(once, order, again);
    SeedIsExact(once, order, again);
    forall k | k in twice
      ensures k in once
    {
      if k.resource in order && k.resource in again {
        var l := Filled(start, order, ids, k.resource);
      }
    }
    assert twice == once;
    SeedReports(once, order, again);
    assert forall k :: k in CreatedKeys(SeededIds(once, order, again)) ==> k in twice && k !in once;
  }

  lemma {:induction false} ReportStep(created: seq<Created>, r: string, ids: seq<Id>)
    ensures forall k :: k in CreatedKeys(created + [Created(r, FilterMap(ids, AsText()))]) <==>
              k in CreatedKeys(created) || (k.resource == r && k.id.Text? && k.id in ids)
  {
    var c := Created(r, FilterMap(ids, AsText()));
    assert forall x :: x in created + [c] <==> x in created || x == c;
    forall k: Key | k.id.Text?
      ensures k.id.text in c.ids <==> k.id in ids
    {
      TextIds(ids, k.id.text);
    }
  }

  /**
   * A seed and then a clear, uninterrupted and with nothing tracked before, leave the rows there were,
   * the bundles' rows, and the sample rows whose keys are no strings; just the first two when every
   * generated key is a string, as it is for every resource a project registers.
   */
  lemma {:induction false} SeedThenClear(rows: map<Key, Origin>, bundles: set<Key>, order: seq<string>, ids: map<string, seq<Id>>, back: seq<string>)
    requires forall r :: r in order ==> r in back
    ensures var start := WithBundles(rows, bundles);
            var seeded := SeededRows(start, order, ids);
            var left := Cleared(seeded, Merged(map[], SeededIds(start, order, ids)), back);
            && (forall k :: k in left <==> k in start || (k in seeded && k.id.Number?))
            && (forall k :: k in start ==> left[k] == start[k])
            && ((forall k :: k in seeded && k !in start ==> k.id.Text?) ==> left == start)
  {
    var start := WithBundles(rows, bundles);
    var seeded, created := SeededRows(start, order, ids), SeededIds(start, order, ids);
    SeedReports(start, order, ids);
    MergeClaims(map[], created);
    ClearedSpec(seeded, Merged(map[], created), back);
  }
}
