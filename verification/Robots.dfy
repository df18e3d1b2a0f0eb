/**
 * The reader of robots.txt, and its agreement with the printer.
 * Models robotsDisallows of apps/web/scripts/check-seo.ts, against renderRobots of apps/web/app/sitemap.ts:
 * the longest matching rule wins, section 2.2.2 of RFC 9309.
 */
module Robots {
  import opened Collections
  import opened Sitemap
  import opened Strings

  // ---------------------------------------------------------------------------
  // Lines
  // ---------------------------------------------------------------------------

  /** `split('\n')`. */
  function Split(body: string): (lines: seq<string>)
    ensures lines != []
  {
    if body == "" then [""]
    else
      var rest := Split(body[1..]);
      if body[0] == '\n' then [""] + rest else [[body[0]] + rest[0]] + rest[1..]
  }

  lemma {:induction false} SplitLine(line: string, rest: string)
    requires '\n' !in line
    ensures Split(line + "\n" + rest) == [line] + Split(rest)
  {
    var body := line + "\n" + rest;
    if line == "" {
      assert body[1..] == rest;
    } else {
      SplitLine(line[1..], rest);
      assert body[1..] == line[1..] + "\n" + rest;
      assert [line[0]] + line[1..] == line;
    }
  }

  /** Reading back the lines that were joined. */
  lemma {:induction false} SplitJoined(lines: seq<string>)
    requires lines != [] && forall i :: 0 <= i < |lines| ==> '\n' !in lines[i]
    ensures Split(Join(lines, "\n") + "\n") == lines + [""]
  {
    if |lines| == 1 {
      SplitLine(lines[0], "");
      assert Join(lines, "\n") + "\n" == lines[0] + "\n" + "";
    } else {
      SplitJoined(lines[1..]);
      SplitLine(lines[0], Join(lines[1..], "\n") + "\n");
      assert Join(lines, "\n") + "\n" == lines[0] + "\n" + (Join(lines[1..], "\n") + "\n");
    }
  }

  function TrimLeft(s: string): string {
    if s != "" && IsSpace(s[0]) then TrimLeft(s[1..]) else s
  }

  function TrimRight(s: string): string {
    if s != "" && IsSpace(s[|s| - 1]) then TrimRight(s[..|s| - 1]) else s
  }

  function Trim(s: string): string {
    TrimRight(TrimLeft(s))
  }

  predicate Spaceless(s: string) {
    forall i :: 0 <= i < |s| ==> !IsSpace(s[i])
  }

  function Lower(c: char): char {
    if 'A' <= c <= 'Z' then (c as int + 32) as char else c
  }

  predicate StartsFolded(s: string, name: string) {
    |name| <= |s| && forall i :: 0 <= i < |name| ==> Lower(s[i]) == name[i]
  }

  /** `/^name\s*(\S+)$/i` on a trimmed line, `name` in lower case. */
  function RuleOn(name: string, raw: string): Option<string> {
    var line := Trim(raw);
    if !StartsFolded(line, name) then None
    else
      var rule := TrimLeft(line[|name|..]);
      if rule != "" && Spaceless(rule) then Some(rule) else None
  }

  ghost predicate Blank(s: string) {
    forall i :: 0 <= i < |s| ==> IsSpace(s[i])
  }

  /** A line that is the name, in any mix of cases, then the rule, with white space around them and between, or none. */
  ghost predicate ReadsAs(name: string, raw: string, rule: string) {
    exists front, word, gap, back ::
      && raw == front + word + gap + rule + back
      && Blank(front) && Blank(gap) && Blank(back)
      && |word| == |name| && StartsFolded(word, name)
      && rule != "" && Spaceless(rule)
  }

  lemma {:induction false} LeftTrimmed(s: string) returns (front: string)
    ensures s == front + TrimLeft(s) && Blank(front)
    ensures TrimLeft(s) != "" ==> !IsSpace(TrimLeft(s)[0])
  {
    front := "";
    if s != "" && IsSpace(s[0]) {
      var rest := LeftTrimmed(s[1..]);
      front := [s[0]] + rest;
    }
  }

  lemma {:induction false} RightTrimmed(s: string) returns (back: string)
    ensures s == TrimRight(s) + back && Blank(back)
  {
    back := "";
    if s != "" && IsSpace(s[|s| - 1]) {
      var rest := RightTrimmed(s[..|s| - 1]);
      back := rest + [s[|s| - 1]];
    }
  }

  lemma {:induction false} TrimsLeft(front: string, s: string)
    requires Blank(front) && s != "" && !IsSpace(s[0])
    ensures TrimLeft(front + s) == s
  {
    if front != "" {
      TrimsLeft(front[1..], s);
      assert (front + s)[1..] == front[1..] + s;
    } else {
      assert front + s == s;
    }
  }

  lemma {:induction false} TrimsRight(s: string, back: string)
    requires Blank(back) && s != "" && !IsSpace(s[|s| - 1])
    ensures TrimRight(s + back) == s
  {
    if back != "" {
      TrimsRight(s, back[..|back| - 1]);
      assert (s + back)[..|s + back| - 1] == s + back[..|back| - 1];
    } else {
      assert s + back == s;
    }
  }

  /** What a line says: exactly the rule that stands after the name, and nothing when the line is anything else. */
  lemma {:induction false} RuleIff(name: string, raw: string, rule: string)
    requires name == ALLOW || name == DISALLOW
    ensures RuleOn(name, raw) == Some(rule) <==> ReadsAs(name, raw, rule)
  {
    if RuleOn(name, raw) == Some(rule) {
      RuleIsThere(name, raw, rule);
    }
    if ReadsAs(name, raw, rule) {
      var front, word, gap, back :|
        && raw == front + word + gap + rule + back && Blank(front) && Blank(gap) && Blank(back)
        && |word| == |name| && StartsFolded(word, name) && rule != "" && Spaceless(rule);
      ThereIsRule(name, front, word, gap, rule, back);
    }
  }

  lemma {:induction false} TrimParts(raw: string) returns (front: string, back: string)
    ensures raw == front + Trim(raw) + back && Blank(front) && Blank(back)
  {
    front := LeftTrimmed(raw);
    back := RightTrimmed(TrimLeft(raw));
    assert front + (Trim(raw) + back) == front + Trim(raw) + back;
  }

  lemma {:induction false} LineParts(name: string, line: string) returns (gap: string)
    requires |name| <= |line|
    ensures line == line[..|name|] + gap + TrimLeft(line[|name|..]) && Blank(gap)
  {
    gap := LeftTrimmed(line[|name|..]);
    assert line == line[..|name|] + (gap + TrimLeft(line[|name|..]));
  }

  lemma {:induction false} PartsRead(name: string, front: string, word: string, gap: string, rule: string, back: string)
    requires Blank(front) && Blank(gap) && Blank(back) && |word| == |name| && StartsFolded(word, name) && rule != "" && Spaceless(rule)
    ensures ReadsAs(name, front + (word + gap + rule) + back, rule)
  {
    assert front + (word + gap + rule) + back == front + word + gap + rule + back;
  }

  lemma {:induction false} RuleIsThere(name: string, raw: string, rule: string)
    requires RuleOn(name, raw) == Some(rule)
    ensures ReadsAs(name, raw, rule)
  {
    var line := Trim(raw);
    var front, back := TrimParts(raw);
    var gap := LineParts(name, line);
    PartsRead(name, front, line[..|name|], gap, rule, back);
  }

  lemma {:induction false} TrimsTo(front: string, line: string, back: string)
    requires Blank(front) && Blank(back) && line != "" && !IsSpace(line[0]) && !IsSpace(line[|line| - 1])
    ensures Trim(front + (line + back)) == line
  {
    TrimsLeft(front, line + back);
    TrimsRight(line, back);
  }

  lemma {:induction false} LineGivesRule(name: string, raw: string, word: string, gap: string, rule: string)
    requires Trim(raw) == word + gap + rule && Blank(gap)
    requires |word| == |name| && StartsFolded(word, name) && rule != "" && Spaceless(rule)
    ensures RuleOn(name, raw) == Some(rule)
  {
    var line := word + gap + rule;
    assert line[|name|..] == gap + rule;
    TrimsLeft(gap, rule);
    assert forall i :: 0 <= i < |name| ==> line[i] == word[i];
  }

  lemma {:induction false} ThereIsRule(name: string, front: string, word: string, gap: string, rule: string, back: string)
    requires name == ALLOW || name == DISALLOW
    requires Blank(front) && Blank(gap) && Blank(back)
    requires |word| == |name| && StartsFolded(word, name) && rule != "" && Spaceless(rule)
    ensures RuleOn(name, front + word + gap + rule + back) == Some(rule)
  {
    var line := word + gap + rule;
    WordIsSolid(name, word);
    assert line[0] == word[0] && line[|line| - 1] == rule[|rule| - 1];
    TrimsTo(front, line, back);
    assert front + word + gap + rule + back == front + (line + back);
    LineGivesRule(name, front + (line + back), word, gap, rule);
  }

  lemma {:induction false} WordIsSolid(name: string, word: string)
    requires (name == ALLOW || name == DISALLOW) && |word| == |name| && StartsFolded(word, name)
    ensures word != "" && !IsSpace(word[0])
  {
    assert Lower(word[0]) == name[0];
  }

  function RuleIn(name: string): string -> Option<string> {
    (raw: string) => RuleOn(name, raw)
  }

  const ALLOW := "allow:"

  const DISALLOW := "disallow:"

  // ---------------------------------------------------------------------------
  // The longest match
  // ---------------------------------------------------------------------------

  predicate Matches(rule: string, path: string) {
    if rule != "" && rule[|rule| - 1] == '$' then path == rule[..|rule| - 1] else rule <= path
  }

  /** A rule matches every path it begins, and one that ends in a dollar sign just the path before the sign. */
  lemma {:induction false} MatchesIff(rule: string, path: string)
    ensures Matches(rule + "$", path) <==> path == rule
    ensures (rule == "" || rule[|rule| - 1] != '$') ==> (Matches(rule, path) <==> rule <= path)
  {
    assert (rule + "$")[..|rule|] == rule;
  }

  /** The length of the longest rule that matches, or -1. */
  function Best(rules: seq<string>, path: string): (best: int)
    ensures best == -1 || exists i :: 0 <= i < |rules| && Matches(rules[i], path) && best == |rules[i]|
    ensures forall i :: 0 <= i < |rules| && Matches(rules[i], path) ==> |rules[i]| <= best
  {
    if rules == [] then -1
    else
      var last := rules[|rules| - 1];
      var best := Best(rules[..|rules| - 1], path);
      if Matches(last, path) && |last| > best then |last| else best
  }

  function Rules(body: string, name: string): seq<string> {
    FilterMap(Split(body), RuleIn(name))
  }

  /** `Math.max`, where the rule is there and matches. */
  function Better(best: int, rule: Option<string>, path: string): int {
    if rule.Some? && Matches(rule.value, path) && |rule.value| > best then |rule.value| else best
  }

  method RobotsDisallows(body: string, path: string) returns (disallowed: bool)
    ensures disallowed <==> Best(Rules(body, DISALLOW), path) > Best(Rules(body, ALLOW), path)
  {
    var bestAllow, bestDisallow := -1, -1;
    var lines := Split(body);
    for i := 0 to |lines|
      invariant bestAllow == Best(FilterMap(lines[..i], RuleIn(ALLOW)), path)
      invariant bestDisallow == Best(FilterMap(lines[..i], RuleIn(DISALLOW)), path)
    {
      BestStep(lines, i, ALLOW, path);
      BestStep(lines, i, DISALLOW, path);
      bestAllow := Better(bestAllow, RuleOn(ALLOW, lines[i]), path);
      bestDisallow := Better(bestDisallow, RuleOn(DISALLOW, lines[i]), path);
    }
    assert lines[..|lines|] == lines;
    return bestDisallow > bestAllow;
  }

  lemma {:induction false} BestStep(lines: seq<string>, i: nat, name: string, path: string)
    requires i < |lines|
    ensures Best(FilterMap(lines[..i + 1], RuleIn(name)), path)
            == Better(Best(FilterMap(lines[..i], RuleIn(name)), path), RuleOn(name, lines[i]), path)
  {
    FilterMapStep(lines, i, RuleIn(name));
    var before, after := FilterMap(lines[..i], RuleIn(name)), FilterMap(lines[..i + 1], RuleIn(name));
    if RuleOn(name, lines[i]).Some? {
      assert after[..|after| - 1] == before;
    } else {
      assert after == before;
    }
  }

  /** A rule that matches and is longer than every rule of a list that does. */
  ghost predicate Outreaches(d: string, rules: seq<string>, path: string) {
    Matches(d, path) && forall a :: a in rules && Matches(a, path) ==> |a| < |d|
  }

  lemma {:induction false} BestOutreaches(disallows: seq<string>, allows: seq<string>, path: string)
    requires Best(disallows, path) > Best(allows, path)
    ensures exists d :: d in disallows && Outreaches(d, allows, path)
  {
    var i :| 0 <= i < |disallows| && Matches(disallows[i], path) && Best(disallows, path) == |disallows[i]|;
    forall a | a in allows && Matches(a, path)
      ensures |a| < |disallows[i]|
    {
      var j :| 0 <= j < |allows| && allows[j] == a;
    }
    assert disallows[i] in disallows;
  }

  lemma {:induction false} OutreachingIsBest(disallows: seq<string>, allows: seq<string>, path: string, d: string)
    requires d in disallows && Outreaches(d, allows, path)
    ensures Best(disallows, path) > Best(allows, path)
  {
    var i :| 0 <= i < |disallows| && disallows[i] == d;
    if Best(allows, path) != -1 {
      var j :| 0 <= j < |allows| && Matches(allows[j], path) && Best(allows, path) == |allows[j]|;
      assert allows[j] in allows;
    }
  }

  /** A path is disallowed exactly when some disallow rule that matches it is longer than every allow rule that does. */
  lemma {:induction false} LongestMatchWins(body: string, path: string)
    ensures Best(Rules(body, DISALLOW), path) > Best(Rules(body, ALLOW), path) <==>
              exists d :: d in Rules(body, DISALLOW) && Outreaches(d, Rules(body, ALLOW), path)
  {
    var allows, disallows := Rules(body, ALLOW), Rules(body, DISALLOW);
    if Best(disallows, path) > Best(allows, path) {
      BestOutreaches(disallows, allows, path);
    }
    if d :| d in disallows && Outreaches(d, allows, path) {
      OutreachingIsBest(disallows, allows, path, d);
    }
  }

  // ---------------------------------------------------------------------------
  // Reading what was printed
  // ---------------------------------------------------------------------------

  lemma {:induction false} TrimSpace(rule: string)
    requires rule != "" && Spaceless(rule)
    ensures TrimLeft(" " + rule) == rule
  {
    assert (" " + rule)[1..] == rule && TrimLeft(rule) == rule;
  }

  /** An `Allow: rule` line gives its rule to the one name and nothing to the other. */
  lemma {:induction false} AllowLineReads(rule: string)
    requires rule != "" && Spaceless(rule)
    ensures RuleOn(ALLOW, "Allow: " + rule) == Some(rule) && RuleOn(DISALLOW, "Allow: " + rule) == None
  {
    var line := "Allow: " + rule;
    assert line[|line| - 1] == rule[|rule| - 1];
    assert line == "Allow:" + (" " + rule) && line[6..] == " " + rule;
    TrimSpace(rule);
    assert Lower(line[0]) == 'a' && DISALLOW[0] == 'd';
  }

  lemma {:induction false} DisallowLineReads(rule: string)
    requires rule != "" && Spaceless(rule)
    ensures RuleOn(DISALLOW, "Disallow: " + rule) == Some(rule) && RuleOn(ALLOW, "Disallow: " + rule) == None
  {
    var line := "Disallow: " + rule;
    assert line[|line| - 1] == rule[|rule| - 1];
    assert line == "Disallow:" + (" " + rule) && line[9..] == " " + rule;
    TrimSpace(rule);
    assert Lower(line[0]) == 'd' && ALLOW[0] == 'a';
  }

  /** A line that begins otherwise gives no rule. */
  lemma {:induction false} OtherLineReads(line: string)
    requires line == "" || (!IsSpace(line[0]) && !IsSpace(line[|line| - 1]) && Lower(line[0]) != 'a' && Lower(line[0]) != 'd')
    ensures RuleOn(ALLOW, line) == None && RuleOn(DISALLOW, line) == None
  {
    assert ALLOW[0] == 'a' && DISALLOW[0] == 'd';
  }

  function PortalPath(key: string): string {
    "/p/" + key
  }

  function PortalRule(): string -> string { (key: string) => PortalPath(key) }

  lemma {:induction false} PortalLine(key: string)
    requires Spaceless(key)
    ensures AllowLine()(key) == "Allow: " + PortalPath(key) && PortalPath(key) != "" && Spaceless(PortalPath(key))
  {
    assert "Allow: " + ("/p/" + key) == "Allow: /p/" + key;
    assert forall i :: 3 <= i < |PortalPath(key)| ==> PortalPath(key)[i] == key[i - 3];
  }

  lemma {:induction false} AllowLinesRead(keys: seq<string>)
    requires forall i :: 0 <= i < |keys| ==> Spaceless(keys[i])
    ensures FilterMap(Map(keys, AllowLine()), RuleIn(ALLOW)) == Map(keys, PortalRule())
    ensures FilterMap(Map(keys, AllowLine()), RuleIn(DISALLOW)) == []
  {
    if keys != [] {
      AllowLinesRead(keys[1..]);
      PortalLine(keys[0]);
      AllowLineReads(PortalPath(keys[0]));
      assert Map(keys, AllowLine())[1..] == Map(keys[1..], AllowLine());
    }
  }

  /** What a crawler reads with no site: everything is disallowed. */
  lemma {:induction false} ClosedRules(plans: seq<Plan>)
    ensures Rules(Sitemap.Robots(None, plans), ALLOW) == []
    ensures Rules(Sitemap.Robots(None, plans), DISALLOW) == ["/"]
  {
    var lines := ["User-agent: *", "Disallow: /"];
    SplitJoined(lines);
    OtherLineReads(lines[0]);
    assert "Disallow: " + "/" == lines[1];
    DisallowLineReads("/");
    OtherLineReads("");
    ThreeRules(lines[0], lines[1], "", ALLOW);
    ThreeRules(lines[0], lines[1], "", DISALLOW);
  }

  function Found(name: string, line: string): seq<string> {
    match RuleOn(name, line) case None => [] case Some(r) => [r]
  }

  lemma {:induction false} OneRule(line: string, name: string)
    ensures FilterMap([line], RuleIn(name)) == Found(name, line)
  {
    assert [line][1..] == [] && FilterMap([line][1..], RuleIn(name)) == [];
  }

  lemma {:induction false} ThreeRules(a: string, b: string, c: string, name: string)
    ensures FilterMap([a, b] + [c], RuleIn(name)) == Found(name, a) + Found(name, b) + Found(name, c)
  {
    OneRule(a, name);
    OneRule(b, name);
    OneRule(c, name);
    FilterMapAppend([a, b], [c], RuleIn(name));
    assert [a, b] == [a] + [b];
    FilterMapAppend([a], [b], RuleIn(name));
  }

  /** The address line and the blank before it. */
  lemma {:induction false} TailRules(address: string, name: string)
    requires name == ALLOW || name == DISALLOW
    requires address != "" && address[0] == 'S' && !IsSpace(address[|address| - 1])
    ensures FilterMap(["", address] + [""], RuleIn(name)) == []
  {
    OtherLineReads("");
    OtherLineReads(address);
    ThreeRules("", address, "", name);
  }

  /** What the three head lines give each name. */
  lemma {:induction false} HeadLinesRead(name: string)
    requires name == ALLOW || name == DISALLOW
    ensures Found(name, "User-agent: *") == []
    ensures Found(name, "Disallow: /") == if name == ALLOW then [] else ["/"]
    ensures Found(name, "Allow: /$") == if name == ALLOW then ["/$"] else []
  {
    OtherLineReads("User-agent: *");
    assert "Disallow: " + "/" == "Disallow: /" && "Allow: " + "/$" == "Allow: /$";
    DisallowLineReads("/");
    AllowLineReads("/$");
  }

  lemma {:induction false} HeadRules()
    ensures FilterMap(["User-agent: *", "Disallow: /"] + ["Allow: /$"], RuleIn(ALLOW)) == ["/$"]
    ensures FilterMap(["User-agent: *", "Disallow: /"] + ["Allow: /$"], RuleIn(DISALLOW)) == ["/"]
  {
    HeadLinesRead(ALLOW);
    HeadLinesRead(DISALLOW);
    ThreeRules("User-agent: *", "Disallow: /", "Allow: /$", ALLOW);
    ThreeRules("User-agent: *", "Disallow: /", "Allow: /$", DISALLOW);
  }

  function Address(domain: string): string {
    "Sitemap: " + SiteUrl(domain, "/sitemap.xml")
  }

  lemma {:induction false} JoinedPartsSplit(head: seq<string>, middle: seq<string>, tail: seq<string>)
    requires head != [] && Unbroken(head) && Unbroken(middle) && Unbroken(tail)
    ensures Split(Join(head + middle + tail, "\n") + "\n") == head + (middle + (tail + [""]))
  {
    SplitJoined(head + middle + tail);
    assert head + middle + tail + [""] == head + (middle + (tail + [""]));
  }

  /** The document with a site, read back line by line. */
  lemma {:induction false} OpenLines(domain: string, plans: seq<Plan>)
    requires '\n' !in domain && forall i :: 0 <= i < |CrawlablePortalKeys(plans)| ==> Spaceless(CrawlablePortalKeys(plans)[i])
    ensures Split(Sitemap.Robots(Some(domain), plans))
            == (["User-agent: *", "Disallow: /"] + ["Allow: /$"])
               + (Map(CrawlablePortalKeys(plans), AllowLine()) + (["", Address(domain)] + [""]))
  {
    HeadUnbroken();
    AllowLinesUnbroken(CrawlablePortalKeys(plans));
    AddressUnbroken(domain);
    JoinedPartsSplit(["User-agent: *", "Disallow: /", "Allow: /$"], Map(CrawlablePortalKeys(plans), AllowLine()), ["", Address(domain)]);
    assert ["User-agent: *", "Disallow: /", "Allow: /$"] == ["User-agent: *", "Disallow: /"] + ["Allow: /$"];
  }

  /** With a site: one disallow rule, and an allow rule for the home page and for each crawlable key. */
  lemma {:induction false} OpenRules(domain: string, plans: seq<Plan>)
    requires '\n' !in domain && forall i :: 0 <= i < |CrawlablePortalKeys(plans)| ==> Spaceless(CrawlablePortalKeys(plans)[i])
    ensures Rules(Sitemap.Robots(Some(domain), plans), ALLOW) == ["/$"] + Map(CrawlablePortalKeys(plans), PortalRule())
    ensures Rules(Sitemap.Robots(Some(domain), plans), DISALLOW) == ["/"]
  {
    HeadRules();
    AllowLinesRead(CrawlablePortalKeys(plans));
    OpenRulesFor(domain, plans, ALLOW);
    OpenRulesFor(domain, plans, DISALLOW);
  }

  lemma {:induction false} OpenRulesFor(domain: string, plans: seq<Plan>, name: string)
    requires '\n' !in domain && forall i :: 0 <= i < |CrawlablePortalKeys(plans)| ==> Spaceless(CrawlablePortalKeys(plans)[i])
    requires name == ALLOW || name == DISALLOW
    ensures Rules(Sitemap.Robots(Some(domain), plans), name)
            == FilterMap(["User-agent: *", "Disallow: /"] + ["Allow: /$"], RuleIn(name))
               + FilterMap(Map(CrawlablePortalKeys(plans), AllowLine()), RuleIn(name))
  {
    OpenLines(domain, plans);
    TailRules(Address(domain), name);
    AppendRules(["User-agent: *", "Disallow: /"] + ["Allow: /$"], Map(CrawlablePortalKeys(plans), AllowLine()), ["", Address(domain)] + [""], name);
  }

  lemma {:induction false} AppendRules(a: seq<string>, b: seq<string>, c: seq<string>, name: string)
    ensures FilterMap(a + (b + c), RuleIn(name))
            == FilterMap(a, RuleIn(name)) + FilterMap(b, RuleIn(name)) + FilterMap(c, RuleIn(name))
  {
    FilterMapAppend(a, b + c, RuleIn(name));
    FilterMapAppend(b, c, RuleIn(name));
  }

  ghost predicate Unbroken(lines: seq<string>) {
    forall i :: 0 <= i < |lines| ==> '\n' !in lines[i]
  }

  lemma {:induction false} AllowLinesUnbroken(keys: seq<string>)
    requires forall i :: 0 <= i < |keys| ==> Spaceless(keys[i])
    ensures Unbroken(Map(keys, AllowLine()))
  {
    forall i | 0 <= i < |keys|
      ensures '\n' !in Map(keys, AllowLine())[i]
    {
      var line := "Allow: /p/" + keys[i];
      assert Map(keys, AllowLine())[i] == line;
      forall k | 0 <= k < |line|
        ensures line[k] != '\n'
      {
        assert k >= 10 ==> line[k] == keys[i][k - 10] && !IsSpace(keys[i][k - 10]);
      }
    }
  }

  lemma {:induction false} AddressUnbroken(domain: string)
    requires '\n' !in domain
    ensures Unbroken(["", Address(domain)])
  {
    assert '\n' !in "Sitemap: " && '\n' !in SiteUrl(domain, "/sitemap.xml");
  }

  lemma {:induction false} HeadUnbroken()
    ensures Unbroken(["User-agent: *", "Disallow: /", "Allow: /$"])
  {
  }

  // ---------------------------------------------------------------------------
  // The agreement
  // ---------------------------------------------------------------------------

  predicate Rooted(path: string) {
    path != "" && path[0] == '/'
  }

  ghost predicate UnderPortal(plans: seq<Plan>, path: string) {
    exists p :: p in plans && p.public && !p.paused && PortalPath(p.key) <= path
  }

  /** What the document disallows. */
  ghost predicate Disallows(domain: Option<string>, plans: seq<Plan>, path: string) {
    var body := Sitemap.Robots(domain, plans);
    Best(Rules(body, DISALLOW), path) > Best(Rules(body, ALLOW), path)
  }

  /** With no site declared, every rooted path is disallowed. */
  lemma {:induction false} NothingIsPublic(plans: seq<Plan>, path: string)
    ensures Disallows(None, plans, path) <==> Rooted(path)
  {
    ClosedRules(plans);
  }

  ghost predicate KeysFit(plans: seq<Plan>) {
    forall p :: p in plans && p.public && !p.paused ==> Spaceless(p.key) && (p.key == "" || p.key[|p.key| - 1] != '$')
  }

  /** The allow rules reach a path exactly when it is the home page or under a crawlable key. */
  lemma {:induction false} AllowedIff(plans: seq<Plan>, path: string)
    requires KeysFit(plans)
    ensures Best(["/$"] + Map(CrawlablePortalKeys(plans), PortalRule()), path) >= 1 <==> path == "/" || UnderPortal(plans, path)
  {
    BestOfEither("/$", Map(CrawlablePortalKeys(plans), PortalRule()), path);
    HomeRule(path);
    SomePortalRuleIff(plans, path);
  }

  lemma {:induction false} HomeRule(path: string)
    ensures Matches("/$", path) <==> path == "/"
  {
    assert "/$"[..1] == "/";
  }

  lemma {:induction false} SomePortalRuleIff(plans: seq<Plan>, path: string)
    requires KeysFit(plans)
    ensures var portals := Map(CrawlablePortalKeys(plans), PortalRule());
            (exists i :: 0 <= i < |portals| && Matches(portals[i], path) && portals[i] != "") <==> UnderPortal(plans, path)
  {
    var portals := Map(CrawlablePortalKeys(plans), PortalRule());
    if i :| 0 <= i < |portals| && Matches(portals[i], path) && portals[i] != "" {
      RuleIsPortals(plans, i, path);
    }
    if UnderPortal(plans, path) {
      PortalHasRule(plans, path);
    }
  }

  lemma {:induction false} BestOfEither(first: string, rest: seq<string>, path: string)
    requires first != ""
    ensures Best([first] + rest, path) >= 1 <==>
              Matches(first, path) || exists i :: 0 <= i < |rest| && Matches(rest[i], path) && rest[i] != ""
  {
    var rules := [first] + rest;
    if Best(rules, path) >= 1 {
      var i :| 0 <= i < |rules| && Matches(rules[i], path) && Best(rules, path) == |rules[i]|;
      assert i > 0 ==> rest[i - 1] == rules[i];
    }
    if Matches(first, path) {
      assert rules[0] == first;
    }
    if i: nat :| i < |rest| && Matches(rest[i], path) && rest[i] != "" {
      assert rules[i + 1] == rest[i];
    }
  }

  lemma {:induction false} RuleIsPortals(plans: seq<Plan>, i: nat, path: string)
    requires KeysFit(plans) && i < |CrawlablePortalKeys(plans)|
    requires Matches(Map(CrawlablePortalKeys(plans), PortalRule())[i], path)
    ensures UnderPortal(plans, path)
  {
    var key := CrawlablePortalKeys(plans)[i];
    assert key in CrawlablePortalKeys(plans);
    CrawlableKeysIff(plans, key);
  }

  lemma {:induction false} PortalHasRule(plans: seq<Plan>, path: string)
    requires KeysFit(plans) && UnderPortal(plans, path)
    ensures var portals := Map(CrawlablePortalKeys(plans), PortalRule());
            exists i :: 0 <= i < |portals| && Matches(portals[i], path) && portals[i] != ""
  {
    var keys := CrawlablePortalKeys(plans);
    var p :| p in plans && p.public && !p.paused && PortalPath(p.key) <= path;
    CrawlableKeysIff(plans, p.key);
    var i :| 0 <= i < |keys| && keys[i] == p.key;
    assert Map(keys, PortalRule())[i] == PortalPath(p.key);
  }

  /**
   * The reader agrees with the printer: with a site declared, a path is disallowed exactly when it is
   * rooted, is not the home page and does not begin with the path of an unpaused public portal.
   */
  lemma {:induction false} RobotsAgree(domain: string, plans: seq<Plan>, path: string)
    requires '\n' !in domain && KeysFit(plans)
    ensures Disallows(Some(domain), plans, path) <==> Rooted(path) && path != "/" && !UnderPortal(plans, path)
  {
    OpenDisallows(domain, plans, path);
    SlashBest(path);
    AllowedIff(plans, path);
  }

  /** The one disallow rule. */
  lemma {:induction false} SlashBest(path: string)
    ensures Best(["/"], path) == if Rooted(path) then 1 else -1
  {
    assert ["/"][..0] == [];
    assert Matches("/", path) <==> Rooted(path);
  }

  lemma {:induction false} OpenDisallows(domain: string, plans: seq<Plan>, path: string)
    requires '\n' !in domain && KeysFit(plans)
    ensures Disallows(Some(domain), plans, path) <==>
              Best(["/"], path) > Best(["/$"] + Map(CrawlablePortalKeys(plans), PortalRule()), path)
  {
    KeysSpaceless(plans);
    OpenRules(domain, plans);
  }

  lemma {:induction false} KeysSpaceless(plans: seq<Plan>)
    requires KeysFit(plans)
    ensures forall i :: 0 <= i < |CrawlablePortalKeys(plans)| ==> Spaceless(CrawlablePortalKeys(plans)[i])
  {
    var keys := CrawlablePortalKeys(plans);
    forall i | 0 <= i < |keys|
      ensures Spaceless(keys[i])
    {
      assert keys[i] in keys;
      CrawlableKeysIff(plans, keys[i]);
    }
  }

  // --- a key is a prefix, not a segment ---

  lemma {:induction false} PrefixUnder(a: string, b: string)
    ensures PortalPath(a) <= PortalPath(b) <==> a <= b
  {
    if a <= b {
      assert b == a + b[|a|..];
      assert PortalPath(b) == PortalPath(a) + b[|a|..];
    }
    if PortalPath(a) <= PortalPath(b) {
      assert forall i :: 0 <= i < |a| ==> a[i] == PortalPath(a)[i + 3] == PortalPath(b)[i + 3] == b[i];
    }
  }

  /**
   * The page of a portal that must not be indexed, and every row page under it, is disallowed exactly
   * when no crawlable key is a prefix of its key: `/p/team` opens `/p/team-salaries` too.
   */
  lemma {:induction false} HiddenPortalIff(domain: string, plans: seq<Plan>, key: string, rest: string)
    requires '\n' !in domain && KeysFit(plans) && (rest == "" || rest[0] == '/')
    requires forall p :: p in plans ==> '/' !in p.key
    ensures Disallows(Some(domain), plans, PortalPath(key + rest)) <==>
              forall p :: p in plans && p.public && !p.paused ==> !(p.key <= key)
  {
    RobotsAgree(domain, plans, PortalPath(key + rest));
    forall p | p in plans
      ensures PortalPath(p.key) <= PortalPath(key + rest) <==> p.key <= key
    {
      PrefixUnder(p.key, key + rest);
      KeyUnder(p.key, key, rest);
    }
  }

  /** A key without a slash is a prefix of a row's path exactly when it is one of the portal's key. */
  lemma {:induction false} KeyUnder(key: string, other: string, rest: string)
    requires '/' !in key && (rest == "" || rest[0] == '/')
    ensures key <= other + rest <==> key <= other
  {
    if key <= other {
      assert other + rest == key + (other[|key|..] + rest);
    }
    if key <= other + rest {
      assert forall i :: 0 <= i < |key| ==> key[i] == (other + rest)[i] && key[i] in key;
      assert rest != "" ==> (other + rest)[|other|] == '/';
      assert key == (other + rest)[..|key|];
    }
  }
}
