/**
 * The limit of a grouped rollup: one query answers a whole page of owners and is cut at owners times
 * limit; each owner's series is cut at its own limit only afterwards.
 * Models the LIMIT of buildRollupQuery, groupRollupRows and the lookup of resolveRollups in
 * packages/maxstack-core/src/sprout/derived.ts. The groups come in whatever order the database sorts
 * them into.
 */
module RollupLimit {
  import opened Collections

  /** A row of the aggregate query; no owner is a table-wide rollup's. */
  datatype Group = Group(owner: Option<string>, key: Option<string>, value: Option<real>)

  datatype Bucket = Bucket(key: Option<string>, value: Option<real>)

  /** The query's LIMIT. */
  function Cap(limit: Option<nat>, owners: nat): nat {
    (if limit.Some? then limit.value else 1) * (if owners == 0 then 1 else owners)
  }

  function Cut<T>(s: seq<T>, n: nat): seq<T> {
    if n < |s| then s[..n] else s
  }

  function OfOwner(owner: Option<string>): Group -> bool { (g: Group) => g.owner == owner }

  function ToBucket(): Group -> Bucket { (g: Group) => Bucket(g.key, g.value) }

  /** An owner's groups, in order, and its first `limit` of them. */
  function GroupsOf(rows: seq<Group>, owner: Option<string>): seq<Bucket> {
    Map(Filter(rows, OfOwner(owner)), ToBucket())
  }

  function SeriesOf(rows: seq<Group>, limit: Option<nat>, owner: Option<string>): seq<Bucket> {
    if limit.Some? then Cut(GroupsOf(rows, owner), limit.value) else GroupsOf(rows, owner)
  }

  /** How many rows the query returns at most: the limit for each owner of the page, or one each, counting a page without owners as one. */
  lemma {:induction false} CapIs(limit: nat, owners: nat)
    ensures Cap(Some(limit), 0) == limit && Cap(None, 0) == 1
    ensures owners > 0 ==> Cap(Some(limit), owners) == limit * owners && Cap(None, owners) == owners
  {}

  /** An owner's series, entry by entry: its first groups, each its key and its value, up to the limit or all of them. */
  lemma {:induction false} SeriesIs(rows: seq<Group>, limit: Option<nat>, owner: Option<string>)
    ensures var own, series := Filter(rows, (g: Group) => g.owner == owner), SeriesOf(rows, limit, owner);
            && |series| == (if limit.Some? && limit.value < |own| then limit.value else |own|)
            && forall i :: 0 <= i < |series| ==> series[i].key == own[i].key && series[i].value == own[i].value
  {
    SameOwner(rows, owner);
  }

  lemma {:induction false} SameOwner(rows: seq<Group>, owner: Option<string>)
    ensures Filter(rows, OfOwner(owner)) == Filter(rows, (g: Group) => g.owner == owner)
  {
    if rows != [] {
      SameOwner(rows[1..], owner);
    }
  }

  lemma {:induction false} GroupsAppend(a: seq<Group>, b: seq<Group>, owner: Option<string>)
    ensures GroupsOf(a + b, owner) == GroupsOf(a, owner) + GroupsOf(b, owner)
  {
    FilterAppend(a, b, OfOwner(owner));
  }

  lemma {:induction false} GroupsStep(rows: seq<Group>, i: nat, owner: Option<string>)
    requires i < |rows|
    ensures GroupsOf(rows[..i + 1], owner)
            == GroupsOf(rows[..i], owner) + if rows[i].owner == owner then [ToBucket()(rows[i])] else []
  {
    assert rows[..i + 1] == rows[..i] + [rows[i]];
    GroupsAppend(rows[..i], [rows[i]], owner);
    assert [rows[i]][1..] == [] && Filter([rows[i]][1..], OfOwner(owner)) == [];
  }

  /** The series kept for an owner, empty when it has not come back. */
  function Kept(out: map<Option<string>, seq<Bucket>>, owner: Option<string>): seq<Bucket> {
    if owner in out then out[owner] else []
  }

  /** Each owner that came back under its series. */
  ghost predicate Grouped(out: map<Option<string>, seq<Bucket>>, rows: seq<Group>, limit: Option<nat>) {
    forall o :: (o in out <==> GroupsOf(rows, o) != []) && Kept(out, o) == SeriesOf(rows, limit, o)
  }

  function AfterRow(series: seq<Bucket>, row: Group, limit: Option<nat>): seq<Bucket> {
    if limit.None? || |series| < limit.value then series + [Bucket(row.key, row.value)] else series
  }

  lemma {:induction false} GroupedStep(out: map<Option<string>, seq<Bucket>>, rows: seq<Group>, i: nat, limit: Option<nat>)
    requires i < |rows| && Grouped(out, rows[..i], limit)
    ensures Grouped(out[rows[i].owner := AfterRow(Kept(out, rows[i].owner), rows[i], limit)], rows[..i + 1], limit)
  {
    var after := out[rows[i].owner := AfterRow(Kept(out, rows[i].owner), rows[i], limit)];
    forall o
      ensures (o in after <==> GroupsOf(rows[..i + 1], o) != []) && Kept(after, o) == SeriesOf(rows[..i + 1], limit, o)
    {
      GroupsStep(rows, i, o);
      assert Kept(out, o) == SeriesOf(rows[..i], limit, o);
    }
  }

  /** groupRollupRows on a grouped rollup: a map from each owner that came back to its series. */
  method GroupRollupRows(rows: seq<Group>, limit: Option<nat>) returns (out: map<Option<string>, seq<Bucket>>)
    ensures Grouped(out, rows, limit)
  {
    out := map[];
    for i := 0 to |rows|
      invariant Grouped(out, rows[..i], limit)
    {
      GroupedStep(out, rows, i, limit);
      var owner := rows[i].owner;
      var series := if owner in out then out[owner] else [];
      if limit.None? || |series| < limit.value {
        series := series + [Bucket(rows[i].key, rows[i].value)];
      }
      out := out[owner := series];
    }
    assert rows[..|rows|] == rows;
  }

  /** What the query returns. */
  function Returned(ordered: seq<Group>, limit: Option<nat>, owners: nat): seq<Group> {
    Cut(ordered, Cap(limit, owners))
  }

  /** What an owner's row on the page shows; an owner that did not come back shows the empty series. */
  function Shown(ordered: seq<Group>, limit: Option<nat>, owners: nat, owner: Option<string>): seq<Bucket> {
    SeriesOf(Returned(ordered, limit, owners), limit, owner)
  }

  function Count(rows: seq<Group>, owner: Option<string>): nat {
    |Filter(rows, OfOwner(owner))|
  }

  /** How long an owner's own series is. */
  function Due(rows: seq<Group>, limit: Option<nat>, owner: Option<string>): nat {
    |SeriesOf(rows, limit, owner)|
  }

  lemma {:induction false} PrefixGroups(ordered: seq<Group>, n: nat, owner: Option<string>)
    ensures GroupsOf(Cut(ordered, n), owner) <= GroupsOf(ordered, owner)
    ensures |GroupsOf(Cut(ordered, n), owner)| == Count(Cut(ordered, n), owner)
  {
    if n < |ordered| {
      assert ordered == ordered[..n] + ordered[n..];
      GroupsAppend(ordered[..n], ordered[n..], owner);
    }
  }

  /**
   * An owner is shown its own first `limit` groups exactly when as many of its groups as it is due are
   * among the rows the query returns; otherwise it is shown a shorter series.
   */
  lemma {:induction false} ShownIsOwnIff(ordered: seq<Group>, limit: Option<nat>, owners: nat, owner: Option<string>)
    ensures Shown(ordered, limit, owners, owner) <= SeriesOf(ordered, limit, owner)
    ensures Shown(ordered, limit, owners, owner) == SeriesOf(ordered, limit, owner)
            <==> Due(ordered, limit, owner) <= Count(Returned(ordered, limit, owners), owner)
  {
    PrefixGroups(ordered, Cap(limit, owners), owner);
  }

  // ---------------------------------------------------------------------------
  // Whatever the order
  // ---------------------------------------------------------------------------

  function OfOthers(owner: Option<string>): Group -> bool { (g: Group) => g.owner != owner }

  lemma {:induction false} CountsAddUp(rows: seq<Group>, owner: Option<string>)
    ensures Count(rows, owner) + |Filter(rows, OfOthers(owner))| == |rows|
  {
    if rows != [] {
      CountsAddUp(rows[1..], owner);
    }
  }

  lemma {:induction false} FilterMultiset<T>(s: seq<T>, p: T -> bool, x: T)
    ensures multiset(Filter(s, p))[x] == if p(x) then multiset(s)[x] else 0
  {
    if s != [] {
      FilterMultiset(s[1..], p, x);
      assert s == [s[0]] + s[1..];
    }
  }

  /** How many groups an owner has does not depend on their order. */
  lemma {:induction false} CountOfOrder(a: seq<Group>, b: seq<Group>, owner: Option<string>)
    requires multiset(a) == multiset(b)
    ensures Count(a, owner) == Count(b, owner) && |a| == |b|
  {
    var f, g := Filter(a, OfOwner(owner)), Filter(b, OfOwner(owner));
    forall x
      ensures multiset(f)[x] == multiset(g)[x]
    {
      FilterMultiset(a, OfOwner(owner), x);
      FilterMultiset(b, OfOwner(owner), x);
    }
    assert multiset(f) == multiset(g);
    assert |f| == |multiset(f)| && |g| == |multiset(g)| && |a| == |multiset(a)| && |b| == |multiset(b)|;
  }

  /** The most rows of an owner that a cut of `n` may leave out are those the others take. */
  lemma {:induction false} CutLeaves(ordered: seq<Group>, n: nat, owner: Option<string>)
    requires n < |ordered|
    ensures Count(Cut(ordered, n), owner) + |ordered| - Count(ordered, owner) >= n
  {
    CountsAddUp(ordered, owner);
    CountsAddUp(ordered[..n], owner);
    assert ordered == ordered[..n] + ordered[n..];
    FilterAppend(ordered[..n], ordered[n..], OfOthers(owner));
  }

  /** The order that serves an owner last. */
  function OthersFirst(groups: seq<Group>, owner: Option<string>): seq<Group> {
    Filter(groups, OfOthers(owner)) + Filter(groups, OfOwner(owner))
  }

  lemma {:induction false} OthersFirstIsAnOrder(groups: seq<Group>, owner: Option<string>)
    ensures multiset(OthersFirst(groups, owner)) == multiset(groups)
  {
    var others, own := Filter(groups, OfOthers(owner)), Filter(groups, OfOwner(owner));
    forall x
      ensures multiset(others + own)[x] == multiset(groups)[x]
    {
      FilterMultiset(groups, OfOthers(owner), x);
      FilterMultiset(groups, OfOwner(owner), x);
    }
  }

  lemma {:induction false} FilterNoneLeft(rows: seq<Group>, owner: Option<string>)
    requires forall i :: 0 <= i < |rows| ==> rows[i].owner != owner
    ensures Count(rows, owner) == 0
  {
    if rows != [] {
      FilterNoneLeft(rows[1..], owner);
    }
  }

  /** In that order a cut leaves an owner only what the others have not taken. */
  lemma {:induction false} ServedLast(groups: seq<Group>, owner: Option<string>, n: nat)
    requires n < |groups|
    ensures var others := |groups| - Count(groups, owner);
            Count(Cut(OthersFirst(groups, owner), n), owner) == if n <= others then 0 else n - others
  {
    var others, own := Filter(groups, OfOthers(owner)), Filter(groups, OfOwner(owner));
    CountsAddUp(groups, owner);
    forall i | 0 <= i < |others|
      ensures others[i].owner != owner
    {
      FilterMember(groups, OfOthers(owner), others[i]);
    }
    if n <= |others| {
      assert Cut(others + own, n) == others[..n];
      FilterNoneLeft(others[..n], owner);
    } else {
      assert Cut(others + own, n) == others + own[..n - |others|];
      FilterNoneLeft(others, owner);
      FilterAppend(others, own[..n - |others|], OfOwner(owner));
      forall i | 0 <= i < |own|
        ensures OfOwner(owner)(own[i])
      {
        FilterMember(groups, OfOwner(owner), own[i]);
      }
      AllKept(own[..n - |others|], owner);
    }
  }

  lemma {:induction false} AllKept(rows: seq<Group>, owner: Option<string>)
    requires forall i :: 0 <= i < |rows| ==> rows[i].owner == owner
    ensures Count(rows, owner) == |rows|
  {
    if rows != [] {
      AllKept(rows[1..], owner);
    }
  }

  ghost predicate ServedInAnyOrder(groups: seq<Group>, limit: Option<nat>, owners: nat, owner: Option<string>) {
    forall ordered :: multiset(ordered) == multiset(groups) ==>
                        Shown(ordered, limit, owners, owner) == SeriesOf(ordered, limit, owner)
  }

  lemma {:induction false} DueIs(rows: seq<Group>, limit: Option<nat>, owner: Option<string>)
    ensures Due(rows, limit, owner) == if limit.Some? && limit.value < Count(rows, owner) then limit.value else Count(rows, owner)
  {}

  /** Room for the owner's series after everybody else's groups is room in any order. */
  lemma {:induction false} RoomServes(groups: seq<Group>, ordered: seq<Group>, limit: Option<nat>, owners: nat, owner: Option<string>)
    requires multiset(ordered) == multiset(groups)
    requires |groups| - Count(groups, owner) + Due(groups, limit, owner) <= Cap(limit, owners) || Due(groups, limit, owner) == 0
    ensures Shown(ordered, limit, owners, owner) == SeriesOf(ordered, limit, owner)
  {
    CountOfOrder(ordered, groups, owner);
    DueIs(ordered, limit, owner);
    DueIs(groups, limit, owner);
    ShownIsOwnIff(ordered, limit, owners, owner);
    if Cap(limit, owners) < |ordered| {
      CutLeaves(ordered, Cap(limit, owners), owner);
    }
  }

  /** Without it, serving the owner last cuts its series. */
  lemma {:induction false} NoRoomCuts(groups: seq<Group>, limit: Option<nat>, owners: nat, owner: Option<string>)
    requires |groups| - Count(groups, owner) + Due(groups, limit, owner) > Cap(limit, owners) && Due(groups, limit, owner) > 0
    ensures Shown(OthersFirst(groups, owner), limit, owners, owner) != SeriesOf(OthersFirst(groups, owner), limit, owner)
  {
    var ordered := OthersFirst(groups, owner);
    OthersFirstIsAnOrder(groups, owner);
    CountOfOrder(ordered, groups, owner);
    DueIs(ordered, limit, owner);
    DueIs(groups, limit, owner);
    ShownIsOwnIff(ordered, limit, owners, owner);
    ServedLast(groups, owner, Cap(limit, owners));
  }

  /**
   * Whatever order the groups come in, an owner is shown its own first `limit` groups exactly when it is
   * due none, or its series fits in the query's limit beside every group of every other owner.
   */
  lemma {:induction false} ServedInAnyOrderIff(groups: seq<Group>, limit: Option<nat>, owners: nat, owner: Option<string>)
    ensures ServedInAnyOrder(groups, limit, owners, owner) <==>
              || Due(groups, limit, owner) == 0
              || |groups| - Count(groups, owner) + Due(groups, limit, owner) <= Cap(limit, owners)
  {
    if Due(groups, limit, owner) == 0 || |groups| - Count(groups, owner) + Due(groups, limit, owner) <= Cap(limit, owners) {
      forall ordered | multiset(ordered) == multiset(groups)
        ensures Shown(ordered, limit, owners, owner) == SeriesOf(ordered, limit, owner)
      {
        RoomServes(groups, ordered, limit, owners, owner);
      }
    } else {
      NoRoomCuts(groups, limit, owners, owner);
      OthersFirstIsAnOrder(groups, owner);
    }
  }

  /** No owner of the page with more than `limit` groups: nothing is cut, and every owner is shown all it has. */
  lemma {:induction false} ShortSeriesAreSafe(ordered: seq<Group>, ids: seq<string>, limit: nat, owner: Option<string>)
    requires forall g :: g in ordered ==> g.owner.Some? && g.owner.value in ids
    requires forall id :: id in ids ==> Count(ordered, Some(id)) <= limit
    ensures Shown(ordered, Some(limit), |ids|, owner) == GroupsOf(ordered, owner)
  {
    TotalBound(ordered, ids, limit);
    OwnerIsAsked(ordered, ids, owner);
  }

  lemma {:induction false} OwnerIsAsked(ordered: seq<Group>, ids: seq<string>, owner: Option<string>)
    requires forall g :: g in ordered ==> g.owner.Some? && g.owner.value in ids
    ensures Count(ordered, owner) > 0 ==> owner.Some? && owner.value in ids
  {
    var own := Filter(ordered, OfOwner(owner));
    if own != [] {
      FilterMember(ordered, OfOwner(owner), own[0]);
    }
  }

  lemma {:induction false} TotalBound(rows: seq<Group>, ids: seq<string>, limit: nat)
    requires forall g :: g in rows ==> g.owner.Some? && g.owner.value in ids
    requires forall id :: id in ids ==> Count(rows, Some(id)) <= limit
    ensures |rows| <= limit * |ids|
    decreases |ids|
  {
    if ids == [] {
      EmptyOrMember(rows);
    } else {
      var first := Some(ids[0]);
      var rest := Filter(rows, OfOthers(first));
      CountsAddUp(rows, first);
      forall g | g in rest
        ensures g.owner.Some? && g.owner.value in ids[1..]
      {
        FilterMember(rows, OfOthers(first), g);
        assert ids == [ids[0]] + ids[1..];
      }
      forall id | id in ids[1..]
        ensures Count(rest, Some(id)) <= limit
      {
        CountAmongOthers(rows, first, Some(id));
      }
      TotalBound(rest, ids[1..], limit);
      Times(limit, |ids| - 1);
    }
  }

  lemma {:induction false} EmptyOrMember<T>(s: seq<T>)
    ensures s == [] || exists x :: x in s
  {
    if s != [] {
      assert s[0] in s;
    }
  }

  lemma {:induction false} Times(limit: nat, n: nat)
    ensures limit * (n + 1) == limit + limit * n
  {}

  lemma {:induction false} CountAmongOthers(rows: seq<Group>, first: Option<string>, owner: Option<string>)
    ensures Count(Filter(rows, OfOthers(first)), owner) <= Count(rows, owner)
  {
    if rows != [] {
      CountAmongOthers(rows[1..], first, owner);
      var rest := Filter(rows[1..], OfOthers(first));
      if OfOthers(first)(rows[0]) {
        assert ([rows[0]] + rest)[1..] == rest;
      }
    }
  }

  /** Two owners and a limit of one: the owner of the two largest groups leaves the other none of the one it has. */
  lemma {:induction false} LargeOwnerStarvesAnother(x: real, y: real, z: real)
    ensures var ordered := [Group(Some("a"), Some("1"), Some(x)), Group(Some("a"), Some("2"), Some(y)), Group(Some("b"), Some("3"), Some(z))];
            && Shown(ordered, Some(1), 2, Some("b")) == []
            && SeriesOf(ordered, Some(1), Some("b")) == [Bucket(Some("3"), Some(z))]
  {
    var a1, a2, b := Group(Some("a"), Some("1"), Some(x)), Group(Some("a"), Some("2"), Some(y)), Group(Some("b"), Some("3"), Some(z));
    var ordered := [a1, a2, b];
    FilterNoneLeft([a1, a2], Some("b"));
    assert Cut(ordered, 2) == [a1, a2];
    assert ordered == [a1, a2] + [b];
    GroupsAppend([a1, a2], [b], Some("b"));
    assert [b][1..] == [] && Filter([b], OfOwner(Some("b"))) == [b];
  }
}
