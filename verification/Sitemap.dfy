/**
 * The sitemap and robots documents, derived from the portal declarations.
 * Models apps/web/app/sitemap.ts (indexablePortals, crawlablePortalKeys, buildSitemap, xmlEscape,
 * sitemapPageCount, renderRobots), siteUrl of packages/spec/src/base/site.ts and the slicing of
 * apps/web/app/routes/sitemaps.$page.ts. A row's `updatedAt`, parsed or absent, is a field of the row.
 */
module Sitemap {
  import opened Collections
  import opened Strings
  import Lex
  import Sorting

  const SITEMAP_URL_LIMIT: nat := 50000

  const SITEMAP_PAGE_SIZE: nat := 10000

  datatype Plan = Plan(key: string, resource: string, public: bool, paused: bool, collection: bool)

  datatype Row = Row(id: Option<string>, lastmod: Option<string>)

  /** What the injected read answers; it may throw. */
  datatype Listing = Listed(rows: seq<Row>) | Failed(message: string)

  datatype Entry = Entry(loc: string, lastmod: Option<string>)

  datatype Reason = ListingFailed(message: string) | AtTheLimit

  datatype Drop = Drop(portalKey: string, reason: Reason, count: int)

  datatype Result = Result(entries: seq<Entry>, dropped: seq<Drop>)

  // ---------------------------------------------------------------------------
  // Selection
  // ---------------------------------------------------------------------------

  function Indexable(): Plan -> bool { (p: Plan) => p.public && !p.paused && p.collection }

  function Crawlable(): Plan -> bool { (p: Plan) => p.public && !p.paused }

  function KeyOf(): Plan -> string { (p: Plan) => p.key }

  function ByKey(locale: (string, string) -> bool): (Plan, Plan) -> bool {
    (a: Plan, b: Plan) => locale(a.key, b.key)
  }

  function IndexablePortals(plans: seq<Plan>, locale: (string, string) -> bool): seq<Plan> {
    Sorting.SortBy(Filter(plans, Indexable()), ByKey(locale))
  }

  function ByText(): (string, string) -> bool { (a: string, b: string) => Lex.Less(a, b) }

  function CrawlablePortalKeys(plans: seq<Plan>): seq<string> {
    Sorting.SortBy(Map(Filter(plans, Crawlable()), KeyOf()), ByText())
  }

  lemma {:induction false} CrawlableKeysIff(plans: seq<Plan>, key: string)
    ensures key in CrawlablePortalKeys(plans) <==> exists p :: p in plans && p.public && !p.paused && p.key == key
  {
    var chosen := Filter(plans, Crawlable());
    assert key in CrawlablePortalKeys(plans) <==> key in multiset(CrawlablePortalKeys(plans));
    forall p
      ensures p in chosen <==> p in plans && p.public && !p.paused
    {
      FilterMember(plans, Crawlable(), p);
    }
    if p :| p in chosen && p.key == key {
      var i :| 0 <= i < |chosen| && chosen[i] == p;
      assert Map(chosen, KeyOf())[i] == key;
    }
    if key in Map(chosen, KeyOf()) {
      var i :| 0 <= i < |chosen| && Map(chosen, KeyOf())[i] == key;
      assert chosen[i] in chosen && chosen[i].key == key;
    }
  }

  // ---------------------------------------------------------------------------
  // URLs
  // ---------------------------------------------------------------------------

  function TrimSlashes(path: string): string {
    if path != "" && path[|path| - 1] == '/' then TrimSlashes(path[..|path| - 1]) else path
  }

  /** siteUrl on a rooted path. */
  function SiteUrl(domain: string, path: string): string
    requires path != "" && path[0] == '/'
  {
    domain + if path == "/" then "/" else TrimSlashes(path)
  }

  function PortalUrl(domain: string, plan: Plan): string {
    SiteUrl(domain, "/p/" + plan.key)
  }

  function RowUrl(domain: string, plan: Plan, id: string): string {
    SiteUrl(domain, "/p/" + plan.key + "/" + id)
  }

  // ---------------------------------------------------------------------------
  // buildSitemap
  // ---------------------------------------------------------------------------

  /** `Array.slice(0, n)`: a negative bound counts from the end. */
  function SliceTo<T>(s: seq<T>, n: int): seq<T> {
    if n >= |s| then s
    else if n >= 0 then s[..n]
    else if |s| + n >= 0 then s[..|s| + n]
    else []
  }

  function RowEntry(domain: string, plan: Plan): Row -> Option<Entry> {
    (r: Row) => match r.id case None => None case Some(id) => Some(Entry(RowUrl(domain, plan, id), r.lastmod))
  }

  function Budget(entries: seq<Entry>): int {
    SITEMAP_URL_LIMIT - |entries|
  }

  /** One portal's turn. */
  function Visited(domain: string, soFar: Result, plan: Plan, listRows: (Plan, int) -> Listing): Result {
    var entries := soFar.entries + [Entry(PortalUrl(domain, plan), None)];
    var budget := Budget(entries);
    match listRows(plan, budget + 1)
    case Failed(message) => Result(entries, soFar.dropped + [Drop(plan.key, ListingFailed(message), 1)])
    case Listed(rows) =>
      if |rows| > budget then
        Result(entries + FilterMap(SliceTo(rows, budget), RowEntry(domain, plan)),
               soFar.dropped + [Drop(plan.key, AtTheLimit, |rows| - budget)])
      else Result(entries + FilterMap(rows, RowEntry(domain, plan)), soFar.dropped)
  }

  function VisitedAll(domain: string, plans: seq<Plan>, listRows: (Plan, int) -> Listing): Result {
    if plans == [] then Result([Entry(SiteUrl(domain, "/"), None)], [])
    else Visited(domain, VisitedAll(domain, plans[..|plans| - 1], listRows), plans[|plans| - 1], listRows)
  }

  function Built(domain: string, plans: seq<Plan>, listRows: (Plan, int) -> Listing, locale: (string, string) -> bool): Result {
    VisitedAll(domain, IndexablePortals(plans, locale), listRows)
  }

  lemma {:induction false} VisitedStep(domain: string, plans: seq<Plan>, i: nat, listRows: (Plan, int) -> Listing)
    requires i < |plans|
    ensures VisitedAll(domain, plans[..i + 1], listRows) == Visited(domain, VisitedAll(domain, plans[..i], listRows), plans[i], listRows)
  {
    assert plans[..i + 1][..i] == plans[..i];
  }

  method BuildSitemap(domain: string, plans: seq<Plan>, listRows: (Plan, int) -> Listing, locale: (string, string) -> bool)
    returns (result: Result)
    ensures result == Built(domain, plans, listRows, locale)
  {
    result := Result([Entry(SiteUrl(domain, "/"), None)], []);
    var indexable := IndexablePortals(plans, locale);
    for i := 0 to |indexable|
      invariant result == VisitedAll(domain, indexable[..i], listRows)
    {
      VisitedStep(domain, indexable, i, listRows);
      result := VisitPortal(domain, result, indexable[i], listRows);
    }
    assert indexable[..|indexable|] == indexable;
  }

  /** The body of the loop over portals. */
  method VisitPortal(domain: string, soFar: Result, plan: Plan, listRows: (Plan, int) -> Listing) returns (result: Result)
    ensures result == Visited(domain, soFar, plan, listRows)
  {
    var entries, dropped := soFar.entries + [Entry(PortalUrl(domain, plan), None)], soFar.dropped;
    var budget := SITEMAP_URL_LIMIT - |entries|;
    var listing := listRows(plan, budget + 1);
    if listing.Failed? {
      return Result(entries, dropped + [Drop(plan.key, ListingFailed(listing.message), 1)]);
    }
    var rows := listing.rows;
    if |rows| > budget {
      dropped := dropped + [Drop(plan.key, AtTheLimit, |rows| - budget)];
      rows := SliceTo(rows, budget);
    }
    var pushed := PushRows(domain, plan, rows);
    return Result(entries + pushed, dropped);
  }

  method PushRows(domain: string, plan: Plan, rows: seq<Row>) returns (entries: seq<Entry>)
    ensures entries == FilterMap(rows, RowEntry(domain, plan))
  {
    entries := [];
    for i := 0 to |rows|
      invariant entries == FilterMap(rows[..i], RowEntry(domain, plan))
    {
      FilterMapStep(rows, i, RowEntry(domain, plan));
      if rows[i].id.None? {
        continue;
      }
      entries := entries + [Entry(RowUrl(domain, plan, rows[i].id.value), rows[i].lastmod)];
    }
    assert rows[..|rows|] == rows;
  }

  // --- the protocol's limit ---

  /** The read honours its limit: asked for `n` rows it answers no more, and none when asked for none. */
  ghost predicate Honest(listRows: (Plan, int) -> Listing) {
    forall plan, n :: listRows(plan, n).Listed? ==> |listRows(plan, n).rows| <= if n > 0 then n else 0
  }

  lemma {:induction false} FilterMapShortens<A, B>(s: seq<A>, f: A -> Option<B>)
    ensures |FilterMap(s, f)| <= |s|
  {
    if s != [] {
      FilterMapShortens(s[1..], f);
    }
  }

  /** A portal takes the list to the limit at most, or one past wherever it already was. */
  lemma {:induction false} VisitBounded(domain: string, soFar: Result, plan: Plan, listRows: (Plan, int) -> Listing)
    requires Honest(listRows)
    ensures var n := |Visited(domain, soFar, plan, listRows).entries|;
            n <= SITEMAP_URL_LIMIT || n == |soFar.entries| + 1
  {
    var budget := Budget(soFar.entries + [Entry(PortalUrl(domain, plan), None)]);
    match listRows(plan, budget + 1)
    case Failed(_) =>
    case Listed(rows) => FilterMapShortens(if |rows| > budget then SliceTo(rows, budget) else rows, RowEntry(domain, plan));
  }

  lemma {:induction false} VisitedAllBounded(domain: string, plans: seq<Plan>, listRows: (Plan, int) -> Listing)
    requires Honest(listRows)
    ensures |VisitedAll(domain, plans, listRows).entries| <= SITEMAP_URL_LIMIT + if plans == [] then 0 else |plans| - 1
  {
    if plans != [] {
      VisitedAllBounded(domain, plans[..|plans| - 1], listRows);
      VisitBounded(domain, VisitedAll(domain, plans[..|plans| - 1], listRows), plans[|plans| - 1], listRows);
    }
  }

  /** The list exceeds the protocol's limit by one entry for each portal after the first, at most. */
  lemma {:induction false} NearTheLimit(domain: string, plans: seq<Plan>, listRows: (Plan, int) -> Listing, locale: (string, string) -> bool)
    requires Honest(listRows)
    ensures var n := |IndexablePortals(plans, locale)|;
            |Built(domain, plans, listRows, locale).entries| <= SITEMAP_URL_LIMIT + if n == 0 then 0 else n - 1
  {
    VisitedAllBounded(domain, IndexablePortals(plans, locale), listRows);
  }

  function Endless(): (Plan, int) -> Listing {
    (p: Plan, n: int) => Listed(seq(if n > 0 then n else 0, _ => Row(Some("x"), None)))
  }

  lemma {:induction false} AllRowsEntered(domain: string, plan: Plan, rows: seq<Row>)
    requires forall i :: 0 <= i < |rows| ==> rows[i].id.Some?
    ensures |FilterMap(rows, RowEntry(domain, plan))| == |rows|
  {
    if rows != [] {
      AllRowsEntered(domain, plan, rows[1..]);
    }
  }

  /** The bound is met: portals that can fill the budget put the list over the limit from the second on. */
  lemma {:induction false} LimitIsExceeded(domain: string, plans: seq<Plan>)
    requires plans != []
    ensures Honest(Endless()) && |VisitedAll(domain, plans, Endless()).entries| == SITEMAP_URL_LIMIT + |plans| - 1
  {
    var soFar := VisitedAll(domain, plans[..|plans| - 1], Endless());
    var plan := plans[|plans| - 1];
    if |plans| > 1 {
      LimitIsExceeded(domain, plans[..|plans| - 1]);
    } else {
      assert plans[..0] == [];
    }
    var budget := Budget(soFar.entries + [Entry(PortalUrl(domain, plan), None)]);
    var rows := Endless()(plan, budget + 1).rows;
    AllRowsEntered(domain, plan, SliceTo(rows, budget));
  }

  /** What each portal's read has to answer, whenever it is asked: rows, or nothing because it throws. */
  type Source = Plan -> Option<seq<Row>>

  function UpTo<T>(s: seq<T>, n: int): seq<T> {
    if n <= 0 then [] else if n >= |s| then s else s[..n]
  }

  /** A read that answers the first rows of what there is, up to its limit. */
  ghost predicate ReadsFrom(listRows: (Plan, int) -> Listing, source: Source) {
    forall plan, n ::
      match source(plan)
      case None => listRows(plan, n).Failed?
      case Some(rows) => listRows(plan, n) == Listed(UpTo(rows, n))
  }

  ghost predicate AllNamed(source: Source) {
    forall plan :: source(plan).Some? ==> forall i :: 0 <= i < |source(plan).value| ==> source(plan).value[i].id.Some?
  }

  function RowCount(source: Source, plan: Plan): nat {
    match source(plan) case None => 0 case Some(rows) => |rows|
  }

  /** The URLs there are to list: the home page, each portal's page and each of its rows. */
  function Wanted(plans: seq<Plan>, source: Source): nat {
    if plans == [] then 1
    else Wanted(plans[..|plans| - 1], source) + 1 + RowCount(source, plans[|plans| - 1])
  }

  /** A portal's turn takes the list to what is wanted, or to the limit, or one past it. */
  lemma {:induction false} VisitSize(domain: string, soFar: Result, plan: Plan, listRows: (Plan, int) -> Listing, source: Source)
    requires ReadsFrom(listRows, source) && AllNamed(source)
    ensures var before, after := |soFar.entries|, |Visited(domain, soFar, plan, listRows).entries|;
            after == if before >= SITEMAP_URL_LIMIT then before + 1
                     else if before + 1 + RowCount(source, plan) <= SITEMAP_URL_LIMIT then before + 1 + RowCount(source, plan)
                     else SITEMAP_URL_LIMIT
  {
    var budget := Budget(soFar.entries) - 1;
    var listing := listRows(plan, budget + 1);
    if source(plan).Some? {
      assert listing == Listed(UpTo(source(plan).value, budget + 1));
      AllRowsEntered(domain, plan, if |listing.rows| > budget then SliceTo(listing.rows, budget) else listing.rows);
    } else {
      assert listing.Failed?;
    }
  }

  lemma {:induction false} SizeIsWanted(domain: string, plans: seq<Plan>, listRows: (Plan, int) -> Listing, source: Source)
    requires ReadsFrom(listRows, source) && AllNamed(source)
    ensures var n, wanted := |VisitedAll(domain, plans, listRows).entries|, Wanted(plans, source);
            if wanted <= SITEMAP_URL_LIMIT then n == wanted else n >= SITEMAP_URL_LIMIT
  {
    if plans != [] {
      var soFar := VisitedAll(domain, plans[..|plans| - 1], listRows);
      SizeIsWanted(domain, plans[..|plans| - 1], listRows, source);
      VisitSize(domain, soFar, plans[|plans| - 1], listRows, source);
    }
  }

  /**
   * The list is within the protocol's limit unless the home page and the pages and rows of all portals
   * but the last already reach it: the page of the last is then one URL too many.
   */
  lemma {:induction false} OverTheLimitIff(domain: string, plans: seq<Plan>, listRows: (Plan, int) -> Listing,
                                           locale: (string, string) -> bool, source: Source)
    requires ReadsFrom(listRows, source) && AllNamed(source)
    ensures var indexable := IndexablePortals(plans, locale);
            |Built(domain, plans, listRows, locale).entries| > 50000 <==>
              indexable != [] && Wanted(indexable[..|indexable| - 1], source) >= 50000
  {
    var indexable := IndexablePortals(plans, locale);
    if indexable != [] {
      var others := indexable[..|indexable| - 1];
      SizeIsWanted(domain, others, listRows, source);
      VisitSize(domain, VisitedAll(domain, others, listRows), indexable[|indexable| - 1], listRows, source);
    }
  }

  // --- one portal's turn, written out ---

  /** A text without the slashes at its end. */
  ghost predicate TrimmedTo(path: string, url: string) {
    (url == "" || url[|url| - 1] != '/') && url <= path && forall i :: |url| <= i < |path| ==> path[i] == '/'
  }

  lemma {:induction false} SlashesTrimmed(path: string)
    ensures TrimmedTo(path, TrimSlashes(path))
  {
    if path != "" && path[|path| - 1] == '/' {
      SlashesTrimmed(path[..|path| - 1]);
    }
  }

  /** The address of a portal's page and of a row on it: under `/p/` and the portal's key, without slashes at the end. */
  lemma {:induction false} UrlsAre(domain: string, plan: Plan, id: string)
    ensures domain <= PortalUrl(domain, plan) && TrimmedTo("/p/" + plan.key, PortalUrl(domain, plan)[|domain|..])
    ensures domain <= RowUrl(domain, plan, id) && TrimmedTo("/p/" + plan.key + "/" + id, RowUrl(domain, plan, id)[|domain|..])
    ensures SiteUrl(domain, "/") == domain + "/"
  {
    SlashesTrimmed("/p/" + plan.key);
    SlashesTrimmed("/p/" + plan.key + "/" + id);
    assert ("/p/" + plan.key)[1] == 'p' && ("/p/" + plan.key + "/" + id)[1] == 'p';
    assert PortalUrl(domain, plan)[|domain|..] == TrimSlashes("/p/" + plan.key);
    assert RowUrl(domain, plan, id)[|domain|..] == TrimSlashes("/p/" + plan.key + "/" + id);
  }

  /**
   * A portal's turn while the budget lasts: its page; then, of the rows its read answers within the budget, an
   * entry for each that has an id, in order, with its date; and one record of a read that threw, or of how many
   * rows were over the budget, under the portal's key.
   */
  lemma {:induction false} TurnIs(domain: string, soFar: Result, plan: Plan, listRows: (Plan, int) -> Listing)
    requires |soFar.entries| < 50000
    ensures var budget := 49999 - |soFar.entries|;
            var listing := listRows(plan, budget + 1);
            var after, page := Visited(domain, soFar, plan, listRows), Entry(PortalUrl(domain, plan), None);
            && (listing.Failed? ==> after == Result(soFar.entries + [page], soFar.dropped + [Drop(plan.key, ListingFailed(listing.message), 1)]))
            && (listing.Listed? && |listing.rows| <= budget ==>
                  after == Result(soFar.entries + [page] + RowsMade(domain, plan, listing.rows), soFar.dropped))
            && (listing.Listed? && |listing.rows| > budget ==>
                  after == Result(soFar.entries + [page] + RowsMade(domain, plan, listing.rows[..budget]),
                                  soFar.dropped + [Drop(plan.key, AtTheLimit, |listing.rows| - budget)]))
  {
    var budget := 49999 - |soFar.entries|;
    assert budget == Budget(soFar.entries + [Entry(PortalUrl(domain, plan), None)]);
    var listing := listRows(plan, budget + 1);
    if listing.Listed? {
      SameEntries(domain, plan, SliceTo(listing.rows, budget));
    }
  }

  /** An entry for each row that has an id, in order: its address and its date. */
  function RowsMade(domain: string, plan: Plan, rows: seq<Row>): seq<Entry> {
    FilterMap(rows, (r: Row) => if r.id == None then None else Some(Entry(RowUrl(domain, plan, r.id.value), r.lastmod)))
  }

  lemma {:induction false} SameEntries(domain: string, plan: Plan, rows: seq<Row>)
    ensures FilterMap(rows, RowEntry(domain, plan)) == RowsMade(domain, plan, rows)
  {
    if rows != [] {
      SameEntries(domain, plan, rows[1..]);
    }
  }

  /** Portals are visited in the order of their keys, whatever order they are declared in. */
  lemma {:induction false} PortalsInOrder(plans: seq<Plan>, locale: (string, string) -> bool)
    requires Sorting.StrictWeak(locale)
    ensures var indexable := IndexablePortals(plans, locale);
            forall i, j :: 0 <= i < j < |indexable| ==> !locale(indexable[j].key, indexable[i].key)
  {
    Sorting.SortByOrdered(Filter(plans, Indexable()), ByKey(locale));
    var indexable := IndexablePortals(plans, locale);
    forall i, j | 0 <= i < j < |indexable|
      ensures !locale(indexable[j].key, indexable[i].key)
    {
      assert !ByKey(locale)(indexable[j], indexable[i]);
    }
  }

  // --- what appears ---

  /** An entry some portal of `plans` accounts for: its own page, or a row its read answered within some limit. */
  ghost predicate Explained(domain: string, plans: seq<Plan>, listRows: (Plan, int) -> Listing, e: Entry) {
    || e == Entry(SiteUrl(domain, "/"), None)
    || exists p :: p in plans && FromPortal(domain, p, listRows, e)
  }

  ghost predicate FromPortal(domain: string, p: Plan, listRows: (Plan, int) -> Listing, e: Entry) {
    || e == Entry(PortalUrl(domain, p), None)
    || exists n: int, r :: listRows(p, n).Listed? && r in listRows(p, n).rows && RowEntry(domain, p)(r) == Some(e)
  }

  lemma {:induction false} RowEntries(domain: string, plan: Plan, rows: seq<Row>, e: Entry)
    ensures e in FilterMap(rows, RowEntry(domain, plan)) <==> exists r :: r in rows && RowEntry(domain, plan)(r) == Some(e)
  {
    if rows != [] {
      RowEntries(domain, plan, rows[1..], e);
      assert forall r :: r in rows <==> r == rows[0] || r in rows[1..];
    }
  }

  lemma {:induction false} VisitExplains(domain: string, soFar: Result, plan: Plan, listRows: (Plan, int) -> Listing, e: Entry)
    requires e in Visited(domain, soFar, plan, listRows).entries && e !in soFar.entries
    ensures FromPortal(domain, plan, listRows, e)
  {
    var budget := Budget(soFar.entries) - 1;
    match listRows(plan, budget + 1)
    case Failed(_) =>
    case Listed(rows) =>
      RowEntries(domain, plan, rows, e);
      RowEntries(domain, plan, SliceTo(rows, budget), e);
      assert forall r :: r in SliceTo(rows, budget) ==> r in rows;
  }

  lemma {:induction false} ExplainedByMore(domain: string, plans: seq<Plan>, listRows: (Plan, int) -> Listing, e: Entry)
    requires plans != [] && Explained(domain, plans[..|plans| - 1], listRows, e)
    ensures Explained(domain, plans, listRows, e)
  {
    if p :| p in plans[..|plans| - 1] && FromPortal(domain, p, listRows, e) {
      assert p in plans;
    }
  }

  lemma {:induction false} VisitedExplained(domain: string, plans: seq<Plan>, listRows: (Plan, int) -> Listing, e: Entry)
    requires e in VisitedAll(domain, plans, listRows).entries
    ensures Explained(domain, plans, listRows, e)
  {
    if plans != [] {
      var n := |plans| - 1;
      var soFar := VisitedAll(domain, plans[..n], listRows);
      if e in soFar.entries {
        VisitedExplained(domain, plans[..n], listRows, e);
        ExplainedByMore(domain, plans, listRows, e);
      } else {
        VisitExplains(domain, soFar, plans[n], listRows, e);
        assert plans[n] in plans;
      }
    }
  }

  lemma {:induction false} IndexableIff(plans: seq<Plan>, locale: (string, string) -> bool, p: Plan)
    ensures p in IndexablePortals(plans, locale) <==> p in plans && p.public && !p.paused && p.collection
  {
    FilterMember(plans, Indexable(), p);
    assert p in IndexablePortals(plans, locale) <==> p in multiset(IndexablePortals(plans, locale));
  }

  /**
   * Nothing appears but the home page, the pages of unpaused public collection portals and the rows
   * their own reads answered: no token, role, paused or row-scoped portal is ever advertised.
   */
  lemma {:induction false} OnlyPublicIsListed(domain: string, plans: seq<Plan>, listRows: (Plan, int) -> Listing, locale: (string, string) -> bool, e: Entry)
    requires e in Built(domain, plans, listRows, locale).entries
    ensures || e == Entry(SiteUrl(domain, "/"), None)
            || exists p :: p in plans && p.public && !p.paused && p.collection && FromPortal(domain, p, listRows, e)
  {
    VisitedExplained(domain, IndexablePortals(plans, locale), listRows, e);
    if p :| p in IndexablePortals(plans, locale) && FromPortal(domain, p, listRows, e) {
      IndexableIff(plans, locale, p);
    }
  }

  lemma {:induction false} VisitedPortals(domain: string, plans: seq<Plan>, listRows: (Plan, int) -> Listing, p: Plan)
    requires p in plans
    ensures Entry(PortalUrl(domain, p), None) in VisitedAll(domain, plans, listRows).entries
  {
    var n := |plans| - 1;
    assert plans == plans[..n] + [plans[n]];
    if p in plans[..n] {
      VisitedPortals(domain, plans[..n], listRows, p);
    }
    var soFar := VisitedAll(domain, plans[..n], listRows);
    assert soFar.entries + [Entry(PortalUrl(domain, plans[n]), None)] <= Visited(domain, soFar, plans[n], listRows).entries;
  }

  /** Every unpaused public collection portal's own page does appear, whatever its read answers. */
  lemma {:induction false} EveryIndexablePageIsListed(domain: string, plans: seq<Plan>, listRows: (Plan, int) -> Listing, locale: (string, string) -> bool, p: Plan)
    requires p in plans && p.public && !p.paused && p.collection
    ensures Entry(PortalUrl(domain, p), None) in Built(domain, plans, listRows, locale).entries
  {
    IndexableIff(plans, locale, p);
    VisitedPortals(domain, IndexablePortals(plans, locale), listRows, p);
  }

  // --- every row accounted for ---

  function Nameless(): Row -> bool { (r: Row) => r.id.None? }

  lemma {:induction false} RowsAccounted(domain: string, plan: Plan, rows: seq<Row>)
    ensures |FilterMap(rows, RowEntry(domain, plan))| + |Filter(rows, Nameless())| == |rows|
  {
    if rows != [] {
      RowsAccounted(domain, plan, rows[1..]);
    }
  }

  function Dropped(before: Result, after: Result): int {
    if |after.dropped| > |before.dropped| then after.dropped[|before.dropped|].count else 0
  }

  /**
   * While the budget lasts, the rows listed are the entries made, the rows counted as dropped, and the
   * rows kept that have no id, which nothing counts; so nothing is dropped silently exactly when every
   * row within the budget has an id.
   */
  lemma {:induction false} RowsAreAccountedFor(domain: string, soFar: Result, plan: Plan, listRows: (Plan, int) -> Listing)
    requires var budget := Budget(soFar.entries) - 1; budget >= 0 && listRows(plan, budget + 1).Listed?
    ensures var budget, after := Budget(soFar.entries) - 1, Visited(domain, soFar, plan, listRows);
            var rows := listRows(plan, budget + 1).rows;
            var made := |after.entries| - |soFar.entries| - 1;
            var skipped := |Filter(SliceTo(rows, budget), Nameless())|;
            && |rows| == made + Dropped(soFar, after) + skipped
            && (|rows| == made + Dropped(soFar, after) <==> forall r :: r in SliceTo(rows, budget) ==> r.id.Some?)
  {
    var budget := Budget(soFar.entries) - 1;
    var kept := SliceTo(listRows(plan, budget + 1).rows, budget);
    VisitCounts(domain, soFar, plan, listRows);
    RowsAccounted(domain, plan, kept);
    NamelessIff(kept);
  }

  lemma {:induction false} VisitCounts(domain: string, soFar: Result, plan: Plan, listRows: (Plan, int) -> Listing)
    requires var budget := Budget(soFar.entries) - 1; budget >= 0 && listRows(plan, budget + 1).Listed?
    ensures var budget, after := Budget(soFar.entries) - 1, Visited(domain, soFar, plan, listRows);
            var rows := listRows(plan, budget + 1).rows;
            && |after.entries| == |soFar.entries| + 1 + |FilterMap(SliceTo(rows, budget), RowEntry(domain, plan))|
            && Dropped(soFar, after) == |rows| - |SliceTo(rows, budget)|
  {
    assert Budget(soFar.entries + [Entry(PortalUrl(domain, plan), None)]) == Budget(soFar.entries) - 1;
  }

  lemma {:induction false} NamelessIff(rows: seq<Row>)
    ensures |Filter(rows, Nameless())| == 0 <==> forall r :: r in rows ==> r.id.Some?
  {
    if rows != [] {
      NamelessIff(rows[1..]);
      assert forall r :: r in rows <==> r == rows[0] || r in rows[1..];
    }
  }

  /** Past the limit a portal asked for no rows is still reported as having dropped some. */
  lemma {:induction false} PhantomDrops(domain: string, soFar: Result, plan: Plan, listRows: (Plan, int) -> Listing)
    requires Honest(listRows) && |soFar.entries| >= SITEMAP_URL_LIMIT && listRows(plan, Budget(soFar.entries)).Listed?
    ensures listRows(plan, Budget(soFar.entries)).rows == []
    ensures Visited(domain, soFar, plan, listRows)
            == Result(soFar.entries + [Entry(PortalUrl(domain, plan), None)],
                      soFar.dropped + [Drop(plan.key, AtTheLimit, |soFar.entries| + 1 - SITEMAP_URL_LIMIT)])
  {
  }

  // ---------------------------------------------------------------------------
  // Pages
  // ---------------------------------------------------------------------------

  function PageCount(total: nat): nat {
    var pages := (total + SITEMAP_PAGE_SIZE - 1) / SITEMAP_PAGE_SIZE;
    if pages > 1 then pages else 1
  }

  /** Child sitemap `page`, counted from one. */
  function PageOf<T>(entries: seq<T>, page: nat): seq<T>
    requires page > 0
  {
    var low, high := (page - 1) * SITEMAP_PAGE_SIZE, page * SITEMAP_PAGE_SIZE;
    if low >= |entries| then [] else if high >= |entries| then entries[low..] else entries[low..high]
  }

  function Pages<T>(entries: seq<T>, n: nat): seq<T> {
    if n == 0 then [] else Pages(entries, n - 1) + PageOf(entries, n)
  }

  lemma {:induction false} PagesPrefix<T>(entries: seq<T>, n: nat)
    ensures Pages(entries, n) == if n * SITEMAP_PAGE_SIZE >= |entries| then entries else entries[..n * SITEMAP_PAGE_SIZE]
  {
    if n > 0 {
      PagesPrefix(entries, n - 1);
    }
  }

  /** The pages, one after another, are the entries; each but the last holds ten thousand, and one page fewer would lose some. */
  lemma {:induction false} PagesCoverMinimally<T>(entries: seq<T>)
    ensures Pages(entries, PageCount(|entries|)) == entries
    ensures PageCount(|entries|) > 0 && forall n: nat :: 0 < n < PageCount(|entries|) ==> |PageOf(entries, n)| == 10000
    ensures forall n: nat :: 0 < n < PageCount(|entries|) ==> Pages(entries, n) != entries
  {
    var total := |entries|;
    var quotient := (total + SITEMAP_PAGE_SIZE - 1) / SITEMAP_PAGE_SIZE;
    assert total <= quotient * SITEMAP_PAGE_SIZE < total + SITEMAP_PAGE_SIZE;
    forall n: nat | 0 < n < PageCount(total)
      ensures |PageOf(entries, n)| == SITEMAP_PAGE_SIZE
    {
      assert n * SITEMAP_PAGE_SIZE <= (quotient - 1) * SITEMAP_PAGE_SIZE;
    }
    PagesPrefix(entries, PageCount(total));
    forall n: nat | 0 < n < PageCount(total)
      ensures Pages(entries, n) != entries
    {
      PagesPrefix(entries, n);
      assert n * SITEMAP_PAGE_SIZE <= (quotient - 1) * SITEMAP_PAGE_SIZE;
    }
  }

  // ---------------------------------------------------------------------------
  // Escaping
  // ---------------------------------------------------------------------------

  /** `replace(/c/g, text)`. */
  function Replaced(s: string, c: char, text: string): string {
    if s == "" then "" else (if s[0] == c then text else [s[0]]) + Replaced(s[1..], c, text)
  }

  function XmlEscape(value: string): string {
    var a := Replaced(value, '&', "&amp;");
    var b := Replaced(a, '<', "&lt;");
    var c := Replaced(b, '>', "&gt;");
    var d := Replaced(c, '\"', "&quot;");
    Replaced(d, '\'', "&apos;")
  }

  function Entity(c: char): string {
    if c == '&' then "&amp;" else if c == '<' then "&lt;" else if c == '>' then "&gt;"
    else if c == '\"' then "&quot;" else if c == '\'' then "&apos;" else [c]
  }

  /** One substitution for each character. */
  function Escaped(s: string): string {
    if s == "" then "" else Entity(s[0]) + Escaped(s[1..])
  }

  lemma {:induction false} ReplacedAppend(s: string, t: string, c: char, text: string)
    ensures Replaced(s + t, c, text) == Replaced(s, c, text) + Replaced(t, c, text)
  {
    if s == "" {
      assert s + t == t;
    } else {
      assert (s + t)[1..] == s[1..] + t;
      ReplacedAppend(s[1..], t, c, text);
    }
  }

  lemma {:induction false} ReplacedAbsent(s: string, c: char, text: string)
    requires c !in s
    ensures Replaced(s, c, text) == s
  {
    if s != "" {
      ReplacedAbsent(s[1..], c, text);
    }
  }

  lemma {:induction false} ReplacedOne(c: char, x: char, text: string)
    ensures Replaced([x], c, text) == if x == c then text else [x]
  {
    assert [x][1..] == "";
  }

  lemma {:induction false} XmlEscapeAppend(s: string, t: string)
    ensures XmlEscape(s + t) == XmlEscape(s) + XmlEscape(t)
  {
    var a, a' := Replaced(s, '&', "&amp;"), Replaced(t, '&', "&amp;");
    var b, b' := Replaced(a, '<', "&lt;"), Replaced(a', '<', "&lt;");
    var c, c' := Replaced(b, '>', "&gt;"), Replaced(b', '>', "&gt;");
    var d, d' := Replaced(c, '\"', "&quot;"), Replaced(c', '\"', "&quot;");
    ReplacedAppend(s, t, '&', "&amp;");
    ReplacedAppend(a, a', '<', "&lt;");
    ReplacedAppend(b, b', '>', "&gt;");
    ReplacedAppend(c, c', '\"', "&quot;");
    ReplacedAppend(d, d', '\'', "&apos;");
  }

  /** A text none of the later replacements finds anything in. */
  ghost predicate Settled(t: string) {
    '<' !in t && '>' !in t && '\"' !in t && '\'' !in t
  }

  lemma {:induction false} SettledStays(t: string)
    requires Settled(t)
    ensures Replaced(t, '<', "&lt;") == t && Replaced(t, '>', "&gt;") == t
    ensures Replaced(t, '\"', "&quot;") == t && Replaced(t, '\'', "&apos;") == t
  {
    ReplacedAbsent(t, '<', "&lt;");
    ReplacedAbsent(t, '>', "&gt;");
    ReplacedAbsent(t, '\"', "&quot;");
    ReplacedAbsent(t, '\'', "&apos;");
  }

  lemma {:induction false} EntitiesSettled(x: char)
    requires x in "&<>\"\'"
    ensures Settled(Entity(x))
  {
  }

  lemma {:induction false} XmlEscapeOne(x: char)
    ensures XmlEscape([x]) == Entity(x)
  {
    ReplacedOne('&', x, "&amp;");
    ReplacedOne('<', x, "&lt;");
    ReplacedOne('>', x, "&gt;");
    ReplacedOne('\"', x, "&quot;");
    ReplacedOne('\'', x, "&apos;");
    if x in "&<>\"\'" {
      EntitiesSettled(x);
      SettledStays(Entity(x));
    }
  }

  /** The five replacements in a row are one substitution for each character: none touches another's output. */
  lemma {:induction false} EscapeIsOnePass(s: string)
    ensures XmlEscape(s) == Escaped(s)
  {
    if s != "" {
      assert s == [s[0]] + s[1..];
      XmlEscapeAppend([s[0]], s[1..]);
      XmlEscapeOne(s[0]);
      EscapeIsOnePass(s[1..]);
    }
  }

  /** What an XML reader makes of text: section 4.6 of XML 1.0; a bare `&` or `<` is not text. */
  function Unescaped(s: string): Option<string>
    decreases |s|
  {
    if s == "" then Some("")
    else if "&amp;" <= s then Following('&', s, 5)
    else if "&lt;" <= s then Following('<', s, 4)
    else if "&gt;" <= s then Following('>', s, 4)
    else if "&quot;" <= s then Following('\"', s, 6)
    else if "&apos;" <= s then Following('\'', s, 6)
    else if s[0] == '&' || s[0] == '<' then None
    else Following(s[0], s, 1)
  }

  function Following(c: char, s: string, n: nat): Option<string>
    requires 0 < n <= |s|
    decreases |s|, 0
  {
    match Unescaped(s[n..]) case None => None case Some(rest) => Some([c] + rest)
  }

  lemma {:induction false} EntityReads(c: char, rest: string)
    ensures Unescaped(Entity(c) + rest) == match Unescaped(rest) case None => None case Some(t) => Some([c] + t)
  {
    var s, n := Entity(c) + rest, |Entity(c)|;
    assert s[n..] == rest;
    assert Entity(c) <= s;
    assert s[0] == Entity(c)[0] && (n > 1 ==> s[1] == Entity(c)[1] && s[2] == Entity(c)[2]);
  }

  /** Every value survives escaping: an XML reader gets it back. */
  lemma {:induction false} EscapeRoundTrip(s: string)
    ensures Unescaped(XmlEscape(s)) == Some(s)
  {
    EscapeIsOnePass(s);
    EscapedReads(s);
  }

  lemma {:induction false} EscapedReads(s: string)
    ensures Unescaped(Escaped(s)) == Some(s)
  {
    if s != "" {
      EntityReads(s[0], Escaped(s[1..]));
      EscapedReads(s[1..]);
      assert s == [s[0]] + s[1..];
    }
  }

  // ---------------------------------------------------------------------------
  // robots.txt
  // ---------------------------------------------------------------------------

  function AllowLine(): string -> string { (key: string) => "Allow: /p/" + key }

  function RobotsLines(domain: Option<string>, plans: seq<Plan>): seq<string> {
    match domain
    case None => ["User-agent: *", "Disallow: /"]
    case Some(d) =>
      ["User-agent: *", "Disallow: /", "Allow: /$"] + Map(CrawlablePortalKeys(plans), AllowLine())
      + ["", "Sitemap: " + SiteUrl(d, "/sitemap.xml")]
  }

  function Robots(domain: Option<string>, plans: seq<Plan>): string {
    Join(RobotsLines(domain, plans), "\n") + "\n"
  }

  /**
   * The document, line by line: for everyone, everything disallowed; with a site, the home page and the portals
   * with a crawlable key allowed, one line each, and then the sitemap's address after an empty line.
   */
  lemma {:induction false} RobotsLinesAre(domain: string, plans: seq<Plan>)
    ensures RobotsLines(None, plans) == ["User-agent: *", "Disallow: /"]
    ensures var lines, keys := RobotsLines(Some(domain), plans), CrawlablePortalKeys(plans);
            && |lines| == |keys| + 5
            && lines[0] == "User-agent: *" && lines[1] == "Disallow: /" && lines[2] == "Allow: /$"
            && (forall i :: 0 <= i < |keys| ==> lines[3 + i] == "Allow: /p/" + keys[i])
            && lines[|keys| + 3] == "" && lines[|keys| + 4] == "Sitemap: " + (domain + "/sitemap.xml")
  {
    SlashesTrimmed("/sitemap.xml");
    assert "/sitemap.xml"[11] == 'l';
  }

  method RenderRobots(domain: Option<string>, plans: seq<Plan>) returns (body: string)
    ensures body == Robots(domain, plans)
  {
    if domain.None? {
      return Join(["User-agent: *", "Disallow: /"], "\n") + "\n";
    }
    var lines := ["User-agent: *", "Disallow: /", "Allow: /$"];
    var allows := AllowLines(CrawlablePortalKeys(plans));
    lines := lines + allows;
    lines := lines + ["", "Sitemap: " + SiteUrl(domain.value, "/sitemap.xml")];
    return Join(lines, "\n") + "\n";
  }

  method AllowLines(keys: seq<string>) returns (lines: seq<string>)
    ensures lines == Map(keys, AllowLine())
  {
    lines := [];
    for i := 0 to |keys|
      invariant lines == Map(keys, AllowLine())[..i]
    {
      lines := lines + ["Allow: /p/" + keys[i]];
    }
  }
}
