/**
 * The project's URLs: printing them and resolving them against the declared pages.
 * Models apps/web/app/project-routes.ts, apps/web/app/page-path.ts and `rowEditRoute` of
 * apps/web/app/reschedule.ts.
 */
module Routes {
  import opened Collections
  import Spec
  import opened PercentEncoding
  import opened Strings

  datatype Page = Page(id: string, name: string, route: string, entityId: string, flag: Option<string>, accepted: bool)

  /** One navigable page of the running app. */
  datatype ProjectRoute = ProjectRoute(slug: string, page: Page)

  datatype ProjectMatch =
    | NotFound
    | ListOf(page: ProjectRoute)
    | NewOn(page: ProjectRoute)
    | ParseOn(page: ProjectRoute)
    | EditOf(page: ProjectRoute, id: string)
    | BadEncoding

  // ---------------------------------------------------------------------------
  // Slugs
  // ---------------------------------------------------------------------------

  function StripLeading(s: string): string {
    if s != "" && s[0] == '/' then StripLeading(s[1..]) else s
  }

  function StripTrailing(s: string): string {
    if s != "" && s[|s| - 1] == '/' then StripTrailing(s[..|s| - 1]) else s
  }

  function SlugOf(route: string): string {
    StripTrailing(StripLeading(route))
  }

  /** Neither end is a slash. */
  predicate Normal(s: string) {
    s == "" || (s[0] != '/' && s[|s| - 1] != '/')
  }

  lemma {:induction false} StripTrailingKeepsHead(s: string)
    requires s == "" || s[0] != '/'
    ensures Normal(StripTrailing(s))
  {
    if s != "" && s[|s| - 1] == '/' {
      StripTrailingKeepsHead(s[..|s| - 1]);
    }
  }

  lemma {:induction false} StripLeadingHead(s: string)
    ensures StripLeading(s) == "" || StripLeading(s)[0] != '/'
  {
    if s != "" && s[0] == '/' {
      StripLeadingHead(s[1..]);
    }
  }

  lemma {:induction false} SlugIsNormal(route: string)
    ensures Normal(SlugOf(route))
  {
    StripLeadingHead(route);
    StripTrailingKeepsHead(StripLeading(route));
  }

  lemma {:induction false} SlugOfRooted(s: string)
    requires Normal(s)
    ensures SlugOf("/" + s) == s
  {
    assert ("/" + s)[1..] == s;
    assert StripLeading("/" + s) == s;
  }

  predicate Slashes(s: string) {
    forall i :: 0 <= i < |s| ==> s[i] == '/'
  }

  /** A slug is its route without the slashes at either end, and nothing else is taken away. */
  lemma {:induction false} SlugOfTrims(route: string) returns (front: string, back: string)
    ensures route == front + SlugOf(route) + back
    ensures Slashes(front) && Slashes(back) && Normal(SlugOf(route))
  {
    SlugIsNormal(route);
    front := LeadingTrimmed(route);
    back := TrailingTrimmed(StripLeading(route));
  }

  lemma {:induction false} LeadingTrimmed(s: string) returns (front: string)
    ensures s == front + StripLeading(s) && Slashes(front)
  {
    front := "";
    if s != "" && s[0] == '/' {
      var rest := LeadingTrimmed(s[1..]);
      front := "/" + rest;
    }
  }

  lemma {:induction false} TrailingTrimmed(s: string) returns (back: string)
    ensures s == StripTrailing(s) + back && Slashes(back)
  {
    back := "";
    if s != "" && s[|s| - 1] == '/' {
      var rest := TrailingTrimmed(s[..|s| - 1]);
      back := rest + "/";
      assert s == s[..|s| - 1] + "/";
    }
  }

  // ---------------------------------------------------------------------------
  // The pages a viewer has
  // ---------------------------------------------------------------------------

  /** No flag is visible; a flag nobody evaluated is off. */
  predicate FlagAllows(page: Page, flags: map<string, bool>) {
    page.flag.None? || (page.flag.value in flags && flags[page.flag.value])
  }

  function PageAccepted(): Page -> bool { (p: Page) => p.accepted }

  function Allowed(flags: map<string, bool>): Page -> bool { (p: Page) => FlagAllows(p, flags) }

  function ToRoute(): Page -> ProjectRoute { (p: Page) => ProjectRoute(SlugOf(p.route), p) }

  function GetRoutes(pages: seq<Page>, flags: map<string, bool>): seq<ProjectRoute> {
    Map(Filter(Spec.AcceptedOrAll(pages, PageAccepted()), Allowed(flags)), ToRoute())
  }

  function PageAt(routes: seq<ProjectRoute>, slug: string): Option<ProjectRoute> {
    Find(routes, (r: ProjectRoute) => r.slug == slug)
  }

  lemma {:induction false} PageAtSpec(routes: seq<ProjectRoute>, slug: string)
    ensures PageAt(routes, slug).Some? ==> PageAt(routes, slug).value in routes && PageAt(routes, slug).value.slug == slug
    ensures PageAt(routes, slug).Some? <==> exists r :: r in routes && r.slug == slug
  {
    FindSpec(routes, (r: ProjectRoute) => r.slug == slug);
  }

  /** What makes a declared page navigable: it is accepted or nothing is, and it has no flag or one that is on. */
  ghost predicate Navigable(pages: seq<Page>, flags: map<string, bool>, p: Page) {
    && p in pages
    && (p.accepted || forall q :: q in pages ==> !q.accepted)
    && (p.flag == None || (p.flag.value in flags && flags[p.flag.value]))
  }

  /** The routes are the navigable pages: each of them, and no other. */
  lemma {:induction false} RoutesAreVisible(pages: seq<Page>, flags: map<string, bool>, r: ProjectRoute)
    ensures r in GetRoutes(pages, flags) <==> Navigable(pages, flags, r.page) && r.slug == SlugOf(r.page.route)
  {
    var grounded := Spec.AcceptedOrAll(pages, PageAccepted());
    var visible := Filter(grounded, Allowed(flags));
    FilterMember(grounded, Allowed(flags), r.page);
    Spec.AcceptedOrAllSpec(pages, PageAccepted());
    if r in GetRoutes(pages, flags) {
      var i :| 0 <= i < |GetRoutes(pages, flags)| && GetRoutes(pages, flags)[i] == r;
      assert r.page == visible[i];
    }
    if r.page in visible && r.slug == SlugOf(r.page.route) {
      var i :| 0 <= i < |visible| && visible[i] == r.page;
      assert GetRoutes(pages, flags)[i] == r;
    }
  }

  /** The pages of a list that the accepted-or-all rule and the flags leave. */
  lemma {:induction false} ShownPages(pages: seq<Page>, all: bool, flags: map<string, bool>, shown: Page -> bool)
    requires forall p :: shown(p) <==> (p.accepted || all) && FlagAllows(p, flags)
    ensures Filter(if all then pages else Filter(pages, PageAccepted()), Allowed(flags)) == Filter(pages, shown)
  {
    if all {
      SameKept(pages, Allowed(flags), shown);
    } else {
      FilterTwice(pages, PageAccepted(), Allowed(flags), shown);
    }
  }

  lemma {:induction false} SameKept<T>(s: seq<T>, p: T -> bool, q: T -> bool)
    requires forall x :: p(x) <==> q(x)
    ensures Filter(s, p) == Filter(s, q)
  {
    if s != [] {
      SameKept(s[1..], p, q);
    }
  }

  /** The routes keep the order in which their pages are declared, and their number. */
  lemma {:induction false} RoutesInOrder(pages: seq<Page>, flags: map<string, bool>)
    ensures var all := forall q :: q in pages ==> !q.accepted;
            GetRoutes(pages, flags)
            == FilterMap(pages, (p: Page) =>
                 if (p.accepted || all) && (p.flag == None || (p.flag.value in flags && flags[p.flag.value]))
                 then Some(ProjectRoute(SlugOf(p.route), p)) else None)
  {
    var accepted := Filter(pages, PageAccepted());
    var all := forall q :: q in pages ==> !q.accepted;
    var shown := (p: Page) => (p.accepted || all) && FlagAllows(p, flags);
    ShownPages(pages, all, flags, shown);
    FilterThenMap(pages, shown, ToRoute(), (p: Page) =>
      if (p.accepted || all) && (p.flag == None || (p.flag.value in flags && flags[p.flag.value]))
      then Some(ProjectRoute(SlugOf(p.route), p)) else None);
    forall q
      ensures q in accepted <==> q in pages && q.accepted
    {
      FilterMember(pages, PageAccepted(), q);
    }
    assert accepted == [] || accepted[0] in accepted;
  }

  /** The first navigable page of a slug, in declaration order. */
  ghost predicate FirstAt(pages: seq<Page>, flags: map<string, bool>, i: nat, slug: string) {
    && i < |pages| && Navigable(pages, flags, pages[i]) && SlugOf(pages[i].route) == slug
    && forall j :: 0 <= j < i ==> !(Navigable(pages, flags, pages[j]) && SlugOf(pages[j].route) == slug)
  }

  /** Some navigable page has the slug. */
  ghost predicate Owned(pages: seq<Page>, flags: map<string, bool>, slug: string) {
    exists p :: Navigable(pages, flags, p) && SlugOf(p.route) == slug
  }

  /** The first image with the slug is the first element's whose image has it. */
  lemma {:induction false} FindFirst(pages: seq<Page>, f: Page -> Option<ProjectRoute>, slug: string, i: nat)
    requires i < |pages| && f(pages[i]).Some? && f(pages[i]).value.slug == slug
    requires forall j :: 0 <= j < i ==> f(pages[j]).None? || f(pages[j]).value.slug != slug
    ensures PageAt(FilterMap(pages, f), slug) == f(pages[i])
  {
    var rest := FilterMap(pages[1..], f);
    var first := match f(pages[0]) case None => [] case Some(r) => [r];
    assert FilterMap(pages, f) == first + rest;
    if i > 0 {
      FindFirst(pages[1..], f, slug, i - 1);
      assert first == [] || first[0].slug != slug;
    }
    assert first + rest == rest || ((first + rest)[0] == first[0] && (first + rest)[1..] == rest);
  }

  lemma {:induction false} FirstIsFound(pages: seq<Page>, flags: map<string, bool>, slug: string, i: nat)
    requires FirstAt(pages, flags, i, slug)
    ensures PageAt(GetRoutes(pages, flags), slug) == Some(ProjectRoute(slug, pages[i]))
  {
    var all := forall q :: q in pages ==> !q.accepted;
    var f := (p: Page) =>
      if (p.accepted || all) && (p.flag == None || (p.flag.value in flags && flags[p.flag.value]))
      then Some(ProjectRoute(SlugOf(p.route), p)) else None;
    RoutesInOrder(pages, flags);
    forall j | 0 <= j < |pages|
      ensures f(pages[j]).Some? <==> Navigable(pages, flags, pages[j])
    {
      assert pages[j] in pages;
    }
    FindFirst(pages, f, slug, i);
  }

  /** What a slug stands for: the first navigable page that has it, or nothing when none has. */
  lemma {:induction false} PageAtIsFirst(pages: seq<Page>, flags: map<string, bool>, slug: string)
    ensures forall i: nat :: FirstAt(pages, flags, i, slug) ==> PageAt(GetRoutes(pages, flags), slug) == Some(ProjectRoute(slug, pages[i]))
    ensures PageAt(GetRoutes(pages, flags), slug).Some? <==> Owned(pages, flags, slug)
  {
    forall i: nat | FirstAt(pages, flags, i, slug)
      ensures PageAt(GetRoutes(pages, flags), slug) == Some(ProjectRoute(slug, pages[i]))
    {
      FirstIsFound(pages, flags, slug, i);
    }
    PageAtSpec(GetRoutes(pages, flags), slug);
    if r :| r in GetRoutes(pages, flags) && r.slug == slug {
      RoutesAreVisible(pages, flags, r);
    }
    if p :| Navigable(pages, flags, p) && SlugOf(p.route) == slug {
      RoutesAreVisible(pages, flags, ProjectRoute(slug, p));
    }
  }

  /** Every slug some navigable page has, has a first. */
  lemma {:induction false} OwnedHasFirst(pages: seq<Page>, flags: map<string, bool>, slug: string) returns (i: nat)
    requires Owned(pages, flags, slug)
    ensures FirstAt(pages, flags, i, slug)
  {
    var p :| Navigable(pages, flags, p) && SlugOf(p.route) == slug;
    var k: nat :| k < |pages| && pages[k] == p;
    i := FirstUpTo(pages, flags, slug, k);
  }

  lemma {:induction false} FirstUpTo(pages: seq<Page>, flags: map<string, bool>, slug: string, k: nat) returns (i: nat)
    requires k < |pages| && Navigable(pages, flags, pages[k]) && SlugOf(pages[k].route) == slug
    ensures FirstAt(pages, flags, i, slug)
  {
    if j: nat :| j < k && Navigable(pages, flags, pages[j]) && SlugOf(pages[j].route) == slug {
      i := FirstUpTo(pages, flags, slug, j);
    } else {
      i := k;
    }
  }

  // ---------------------------------------------------------------------------
  // Resolving a path
  // ---------------------------------------------------------------------------

  /** `lastIndexOf('/')`. */
  function LastSlash(s: string): (cut: int)
    ensures -1 <= cut < |s|
    ensures cut >= 0 ==> s[cut] == '/'
  {
    if s == "" then -1 else if s[|s| - 1] == '/' then |s| - 1 else LastSlash(s[..|s| - 1])
  }

  predicate HexDigits(s: string) {
    forall i :: 0 <= i < |s| ==> '0' <= s[i] <= '9' || 'a' <= s[i] <= 'f' || 'A' <= s[i] <= 'F'
  }

  /** A number, or the 8-4-4-4-12 shape of a uuid. */
  predicate LooksLikeRecordId(s: string) {
    || (s != "" && Digits(s))
    || (|s| == 36 && s[8] == '-' && s[13] == '-' && s[18] == '-' && s[23] == '-'
        && HexDigits(s[..8]) && HexDigits(s[9..13]) && HexDigits(s[14..18]) && HexDigits(s[19..23]) && HexDigits(s[24..]))
  }

  /** What a slug no page has means: something on the page one segment up. */
  function MatchBelow(routes: seq<ProjectRoute>, slug: string): ProjectMatch {
    var cut := LastSlash(slug);
    var head := if cut == -1 then "" else slug[..cut];
    var tail := if cut == -1 then slug else slug[cut + 1..];
    if tail == "" then NotFound
    else
      var page := PageAt(routes, head);
      if page.None? then NotFound
      else if tail == "new" then NewOn(page.value)
      else if tail == "parse" then ParseOn(page.value)
      else if cut == -1 && !LooksLikeRecordId(tail) then NotFound
      else match Decode(tail)
        case None => BadEncoding
        case Some(id) => EditOf(page.value, id)
  }

  function MatchProjectPath(pages: seq<Page>, path: string, flags: map<string, bool>): ProjectMatch {
    var routes := GetRoutes(pages, flags);
    var declared := PageAt(routes, SlugOf(path));
    if declared.Some? then ListOf(declared.value) else MatchBelow(routes, SlugOf(path))
  }

  // ---------------------------------------------------------------------------
  // Printing a path
  // ---------------------------------------------------------------------------

  function PagePath(slug: string, rest: seq<string>): string {
    "/" + Join(Filter([slug] + rest, (part: string) => part != ""), "/")
  }

  function RowEditRoute(slug: string, id: string): string {
    PagePath(slug, [Encode(id)])
  }

  /** A segment under a page's slug. */
  function Under(slug: string, segment: string): string {
    if slug == "" then segment else slug + "/" + segment
  }

  lemma {:induction false} PagePathBare(slug: string)
    ensures PagePath(slug, []) == "/" + slug
  {
    var p := (part: string) => part != "";
    assert [slug] + [] == [slug] && [slug][1..] == [];
    assert Filter([slug], p) == if slug == "" then [] else [slug];
  }

  lemma {:induction false} PagePathSegment(slug: string, segment: string)
    requires segment != ""
    ensures PagePath(slug, [segment]) == "/" + Under(slug, segment)
  {
    var p := (part: string) => part != "";
    var parts := [slug] + [segment];
    assert parts[1..] == [segment] && [segment][1..] == [];
    assert Filter([segment], p) == [segment];
    assert Filter(parts, p) == if slug == "" then [segment] else [slug, segment];
    if slug != "" {
      assert [slug, segment][1..] == [segment];
      assert Join([slug, segment], "/") == slug + "/" + segment;
    }
  }

  lemma {:induction false} LastSlashSplit(head: string, tail: string)
    requires '/' !in tail
    ensures LastSlash(head + "/" + tail) == |head|
  {
    var s := head + "/" + tail;
    if tail == "" {
      assert s[|s| - 1] == '/';
    } else {
      var shorter := tail[..|tail| - 1];
      LastSlashSplit(head, shorter);
      assert s[..|s| - 1] == head + "/" + shorter;
      assert s[|s| - 1] == tail[|tail| - 1];
    }
  }

  /** How a path one segment below a slug splits: back into the slug and the segment. */
  lemma {:induction false} UnderSplits(slug: string, segment: string)
    requires Normal(slug) && segment != "" && '/' !in segment
    ensures var path := "/" + Under(slug, segment);
            var cut := LastSlash(Under(slug, segment));
            && SlugOf(path) == Under(slug, segment)
            && (cut == -1 <==> slug == "")
            && (cut == -1 ==> Under(slug, segment) == segment)
            && (cut != -1 ==> Under(slug, segment)[..cut] == slug && Under(slug, segment)[cut + 1..] == segment)
  {
    var s := Under(slug, segment);
    assert segment[0] in segment && segment[|segment| - 1] in segment;
    assert s[|s| - 1] == segment[|segment| - 1];
    SlugOfRooted(s);
    if slug == "" {
    } else {
      LastSlashSplit(slug, segment);
    }
  }

  /** What a path one segment below a slug means. */
  lemma {:induction false} MatchUnder(pages: seq<Page>, slug: string, segment: string, flags: map<string, bool>)
    requires Normal(slug) && segment != "" && '/' !in segment
    ensures var routes := GetRoutes(pages, flags);
            MatchProjectPath(pages, "/" + Under(slug, segment), flags) ==
            if PageAt(routes, Under(slug, segment)).Some? then ListOf(PageAt(routes, Under(slug, segment)).value)
            else if PageAt(routes, slug).None? then NotFound
            else if segment == "new" then NewOn(PageAt(routes, slug).value)
            else if segment == "parse" then ParseOn(PageAt(routes, slug).value)
            else if slug == "" && !LooksLikeRecordId(segment) then NotFound
            else match Decode(segment) case None => BadEncoding case Some(id) => EditOf(PageAt(routes, slug).value, id)
  {
    UnderSplits(slug, segment);
  }

  // ---------------------------------------------------------------------------
  // Round trips
  // ---------------------------------------------------------------------------

  /** A page's own URL is its list: of navigable pages sharing a slug, the first declared. */
  lemma {:induction false} ListRoundTrip(pages: seq<Page>, i: nat, slug: string, flags: map<string, bool>)
    requires FirstAt(pages, flags, i, slug)
    ensures MatchProjectPath(pages, PagePath(slug, []), flags) == ListOf(ProjectRoute(slug, pages[i]))
  {
    SlugIsNormal(pages[i].route);
    PagePathBare(slug);
    SlugOfRooted(slug);
    PageAtIsFirst(pages, flags, slug);
  }

  /** A URL under a page's own goes to the page of that slug, if one is declared. */
  lemma {:induction false} DeclaredUnder(pages: seq<Page>, slug: string, word: string, flags: map<string, bool>)
    requires Normal(slug) && (word == "new" || word == "parse")
    ensures var routes := GetRoutes(pages, flags);
            var m := MatchProjectPath(pages, PagePath(slug, [word]), flags);
            && (m.ListOf? <==> Owned(pages, flags, Under(slug, word)))
            && (!m.ListOf? && PageAt(routes, slug).Some? ==>
                  m == if word == "new" then NewOn(PageAt(routes, slug).value) else ParseOn(PageAt(routes, slug).value))
  {
    PageAtIsFirst(pages, flags, Under(slug, word));
    PagePathSegment(slug, word);
    MatchUnder(pages, slug, word, flags);
  }

  /** A page's create URL creates on that page exactly when no navigable page owns the URL; `parse` likewise. */
  lemma {:induction false} NewRoundTrip(pages: seq<Page>, i: nat, slug: string, flags: map<string, bool>)
    requires FirstAt(pages, flags, i, slug)
    ensures MatchProjectPath(pages, PagePath(slug, ["new"]), flags) == NewOn(ProjectRoute(slug, pages[i]))
            <==> !Owned(pages, flags, Under(slug, "new"))
    ensures MatchProjectPath(pages, PagePath(slug, ["parse"]), flags) == ParseOn(ProjectRoute(slug, pages[i]))
            <==> !Owned(pages, flags, Under(slug, "parse"))
  {
    SlugIsNormal(pages[i].route);
    PageAtIsFirst(pages, flags, slug);
    DeclaredUnder(pages, slug, "new", flags);
    DeclaredUnder(pages, slug, "parse", flags);
  }

  /** What a key looks like: digits, or 36 characters of hexadecimal but for dashes at four places. */
  lemma {:induction false} KeyShapeIff(s: string)
    ensures LooksLikeRecordId(s) <==>
              || (s != "" && forall i :: 0 <= i < |s| ==> '0' <= s[i] <= '9')
              || (|s| == 36 && forall i :: 0 <= i < |s| ==>
                    if i == 8 || i == 13 || i == 18 || i == 23 then s[i] == '-'
                    else '0' <= s[i] <= '9' || 'a' <= s[i] <= 'f' || 'A' <= s[i] <= 'F')
  {
    if |s| == 36 {
      var p0, p1, p2, p3, p4 := s[..8], s[9..13], s[14..18], s[19..23], s[24..];
      assert forall i :: 0 <= i < 8 ==> s[i] == p0[i];
      assert forall i :: 9 <= i < 13 ==> s[i] == p1[i - 9];
      assert forall i :: 14 <= i < 18 ==> s[i] == p2[i - 14];
      assert forall i :: 19 <= i < 23 ==> s[i] == p3[i - 19];
      assert forall i :: 24 <= i < 36 ==> s[i] == p4[i - 24];
    }
  }

  lemma {:induction false} KeyShapeIsPlain(s: string)
    requires LooksLikeRecordId(s)
    ensures Plain(s)
  {
    if !Digits(s) {
      forall i | 0 <= i < |s|
        ensures Unreserved(s[i])
      {
        if i < 8 { assert s[i] == s[..8][i]; }
        else if 9 <= i < 13 { assert s[i] == s[9..13][i - 9]; }
        else if 14 <= i < 18 { assert s[i] == s[14..18][i - 14]; }
        else if 19 <= i < 23 { assert s[i] == s[19..23][i - 19]; }
        else if 24 <= i { assert s[i] == s[24..][i - 24]; }
      }
    }
  }

  /** Encoding neither makes nor hides a key shape. */
  lemma {:induction false} KeyShapeEncoded(id: string)
    ensures LooksLikeRecordId(Encode(id)) <==> LooksLikeRecordId(id)
  {
    if LooksLikeRecordId(id) {
      KeyShapeIsPlain(id);
      PlainFixed(id);
    }
    if LooksLikeRecordId(Encode(id)) {
      KeyShapeIsPlain(Encode(id));
      PlainImage(id, Encode(id));
    }
  }

  lemma {:induction false} WordEncoded(id: string, word: string)
    requires Plain(word)
    ensures Encode(id) == word <==> id == word
  {
    PlainFixed(word);
    if Encode(id) == word {
      PlainImage(id, word);
    }
  }

  /**
   * A record's URL resolves back to that record exactly when the id is not empty and not one of the
   * two reserved words, no declared page owns the URL, and, on the root page, the id is key-shaped.
   */
  lemma {:induction false} RecordRoundTripIff(pages: seq<Page>, i: nat, slug: string, id: string, flags: map<string, bool>)
    requires FirstAt(pages, flags, i, slug)
    ensures MatchProjectPath(pages, RowEditRoute(slug, id), flags) == EditOf(ProjectRoute(slug, pages[i]), id) <==>
              && id != "" && id != "new" && id != "parse"
              && !Owned(pages, flags, Under(slug, Encode(id)))
              && (slug == "" ==> LooksLikeRecordId(id))
  {
    SlugIsNormal(pages[i].route);
    PageAtIsFirst(pages, flags, slug);
    if id == "" {
      EncodedIsSegment(id);
      EmptySegment(slug);
      ListRoundTrip(pages, i, slug, flags);
    } else {
      RecordMatch(pages, slug, id, flags);
      PageAtIsFirst(pages, flags, Under(slug, Encode(id)));
    }
  }

  /** What a non-empty record id's URL means. */
  lemma {:induction false} RecordMatch(pages: seq<Page>, slug: string, id: string, flags: map<string, bool>)
    requires Normal(slug) && id != ""
    ensures var routes := GetRoutes(pages, flags);
            MatchProjectPath(pages, RowEditRoute(slug, id), flags) ==
            if PageAt(routes, Under(slug, Encode(id))).Some? then ListOf(PageAt(routes, Under(slug, Encode(id))).value)
            else if PageAt(routes, slug).None? then NotFound
            else if id == "new" then NewOn(PageAt(routes, slug).value)
            else if id == "parse" then ParseOn(PageAt(routes, slug).value)
            else if slug == "" && !LooksLikeRecordId(id) then NotFound
            else EditOf(PageAt(routes, slug).value, id)
  {
    EncodedIsSegment(id);
    PagePathSegment(slug, Encode(id));
    MatchUnder(pages, slug, Encode(id), flags);
    WordEncoded(id, "new");
    WordEncoded(id, "parse");
    KeyShapeEncoded(id);
    RoundTrip(id);
  }

  lemma {:induction false} EmptySegment(slug: string)
    ensures PagePath(slug, [""]) == PagePath(slug, [])
  {
    var p := (part: string) => part != "";
    assert [slug] + [""] == [slug, ""] && [slug, ""][1..] == [""] && [""][1..] == [];
    assert Filter([""], p) == [];
    assert [slug] + [] == [slug] && [slug][1..] == [];
    assert Filter([slug, ""], p) == Filter([slug], p);
  }

  predicate OnPage(m: ProjectMatch) {
    m.ListOf? || m.NewOn? || m.ParseOn? || m.EditOf?
  }

  lemma {:induction false} MatchedPageIsARoute(pages: seq<Page>, path: string, flags: map<string, bool>)
    requires OnPage(MatchProjectPath(pages, path, flags))
    ensures MatchProjectPath(pages, path, flags).page in GetRoutes(pages, flags)
  {
    PageAtSpec(GetRoutes(pages, flags), SlugOf(path));
    MatchedBelow(GetRoutes(pages, flags), SlugOf(path));
  }

  lemma {:induction false} MatchedBelow(routes: seq<ProjectRoute>, slug: string)
    ensures OnPage(MatchBelow(routes, slug)) ==> MatchBelow(routes, slug).page in routes
    ensures !MatchBelow(routes, slug).ListOf?
  {
    var cut := LastSlash(slug);
    PageAtSpec(routes, if cut == -1 then "" else slug[..cut]);
  }

  /** A path never resolves to a page that is undeclared, ungrounded or hidden by a flag. */
  lemma {:induction false} OnlyVisiblePages(pages: seq<Page>, path: string, flags: map<string, bool>)
    requires OnPage(MatchProjectPath(pages, path, flags))
    ensures Navigable(pages, flags, MatchProjectPath(pages, path, flags).page.page)
  {
    MatchedPageIsARoute(pages, path, flags);
    RoutesAreVisible(pages, flags, MatchProjectPath(pages, path, flags).page);
  }

  /**
   * A path is a page's list exactly when some navigable page has its slug, and then it is the first such
   * page's: a declared page beats any other reading.
   */
  lemma {:induction false} DeclaredPageWins(pages: seq<Page>, path: string, flags: map<string, bool>)
    ensures var m := MatchProjectPath(pages, path, flags);
            && (m.ListOf? <==> Owned(pages, flags, SlugOf(path)))
            && forall i: nat :: FirstAt(pages, flags, i, SlugOf(path)) ==> m == ListOf(ProjectRoute(SlugOf(path), pages[i]))
  {
    PageAtIsFirst(pages, flags, SlugOf(path));
    MatchedBelow(GetRoutes(pages, flags), SlugOf(path));
  }
}
