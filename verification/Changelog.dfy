/**
 * The changelog: the commit history cut into one section for each release.
 * Models apps/maxstack/scripts/changelog.ts (classify, renderSection, the release ranges of
 * buildChangelog) on a linear history, newest commit first; a rendered section is its lines before they
 * are joined.
 */
module Changelog {
  import opened Collections
  import opened Strings

  /** `mentions` when the message, subject or body, holds `chore(release): maxstack@`. */
  datatype Commit = Commit(hash: string, subject: string, mentions: bool)

  datatype Change = Change(kind: string, scope: Option<string>, breaking: bool, desc: string, hash: string)

  // ---------------------------------------------------------------------------
  // Classification
  // ---------------------------------------------------------------------------

  const SECTIONS: seq<(string, string)> :=
    [("feat", "Features"), ("fix", "Fixes"), ("perf", "Performance"), ("revert", "Reverts"), ("other", "Other changes")]

  const HIDDEN: set<string> := {"chore", "docs", "test", "style", "ci", "build"}

  predicate Known(kind: string) {
    kind in HIDDEN || exists i :: 0 <= i < |SECTIONS| && SECTIONS[i].0 == kind
  }

  predicate IsWord(c: char) {
    'a' <= c <= 'z' || 'A' <= c <= 'Z' || IsDigit(c) || c == '_'
  }

  /** How many characters from the start of `s` are word characters. */
  function WordRun(s: string): (n: nat)
    ensures n <= |s| && forall i :: 0 <= i < n ==> IsWord(s[i])
    ensures n < |s| ==> !IsWord(s[n])
  {
    if s != "" && IsWord(s[0]) then 1 + WordRun(s[1..]) else 0
  }

  function LowerOf(s: string): string {
    if s == "" then "" else [if 'A' <= s[0] <= 'Z' then (s[0] as int + 32) as char else s[0]] + LowerOf(s[1..])
  }

  /** What `.` does not match. */
  predicate EndsLine(c: char) {
    c == '\n' || c == '\r' || c as int == 0x2028 || c as int == 0x2029
  }

  function SkipSpaces(s: string): string {
    if s != "" && IsSpace(s[0]) then SkipSpaces(s[1..]) else s
  }

  predicate OnOneLine(s: string) {
    forall i :: 0 <= i < |s| ==> !EndsLine(s[i])
  }

  /** `\s*(.+)$`: spaces are skipped, but something is left. */
  function Description(s: string): Option<string> {
    var desc := if SkipSpaces(s) == "" && s != "" then [s[|s| - 1]] else SkipSpaces(s);
    if desc != "" && OnOneLine(desc) then Some(desc) else None
  }

  function ClosingParen(s: string): Option<nat> {
    if s == "" then None else if s[0] == ')' then Some(0)
    else match ClosingParen(s[1..]) case None => None case Some(n) => Some(n + 1)
  }

  /** `(?:\(([^)]+)\))?`, and what follows. */
  function Scope(s: string): Option<(Option<string>, string)> {
    if s == "" || s[0] != '(' then Some((None, s))
    else match ClosingParen(s[1..])
      case None => None
      case Some(n) => if n == 0 || n >= |s[1..]| then None else Some((Some(s[1..][..n]), s[1..][n + 1..]))
  }

  /** `(!)?:\s*(.+)$`. */
  function Ending(rest: string): Option<(bool, string)> {
    var breaking := rest != "" && rest[0] == '!';
    var after := if breaking then rest[1..] else rest;
    if after == "" || after[0] != ':' then None
    else match Description(after[1..]) case None => None case Some(desc) => Some((breaking, desc))
  }

  /** `^(\w+)(?:\(([^)]+)\))?(!)?:\s*(.+)$` on a subject. */
  function Conventional(subject: string): Option<(string, Option<string>, bool, string)> {
    var n := WordRun(subject);
    if n == 0 then None
    else match Scope(subject[n..])
      case None => None
      case Some((scope, rest)) =>
        match Ending(rest) case None => None case Some((breaking, desc)) => Some((subject[..n], scope, breaking, desc))
  }

  predicate LeadsWith(subject: string, verb: string) {
    LowerOf(subject[..WordRun(subject)]) == verb
  }

  /** `^(fix|add|feat|revert)\b`, in any case: what prose is filed under. */
  function ProseKind(subject: string): string {
    if LeadsWith(subject, "fix") then "fix"
    else if LeadsWith(subject, "add") || LeadsWith(subject, "feat") then "feat"
    else if LeadsWith(subject, "revert") then "revert"
    else "other"
  }

  function Classify(subject: string, hash: string): Change {
    var m := Conventional(subject);
    if m.Some? && Known(LowerOf(m.value.0)) then Change(LowerOf(m.value.0), m.value.1, m.value.2, m.value.3, hash)
    else Change(ProseKind(subject), None, false, subject, hash)
  }

  /** Every subject gets a type some part of a section is for. */
  lemma {:induction false} ClassifiedIsKnown(subject: string, hash: string)
    ensures Known(Classify(subject, hash).kind)
  {
    assert SECTIONS[0].0 == "feat" && SECTIONS[1].0 == "fix" && SECTIONS[3].0 == "revert" && SECTIONS[4].0 == "other";
  }

  /** A subject as the convention writes it. */
  function Subject(kind: string, scope: Option<string>, breaking: bool, desc: string): string {
    kind + ScopeText(scope) + Mark(breaking, desc)
  }

  function ScopeText(scope: Option<string>): string {
    if scope.None? then "" else "(" + scope.value + ")"
  }

  function Mark(breaking: bool, desc: string): string {
    (if breaking then "!" else "") + ": " + desc
  }

  ghost predicate Word(s: string) {
    s != "" && forall i :: 0 <= i < |s| ==> IsWord(s[i])
  }

  lemma {:induction false} WordRunStops(s: string, t: string)
    requires (forall i :: 0 <= i < |s| ==> IsWord(s[i])) && (t == "" || !IsWord(t[0]))
    ensures WordRun(s + t) == |s|
  {
    if s == "" {
      assert s + t == t;
    } else {
      assert (s + t)[1..] == s[1..] + t;
      WordRunStops(s[1..], t);
    }
  }

  lemma {:induction false} ClosesAt(s: string, t: string)
    requires ')' !in s
    ensures ClosingParen(s + ")" + t) == Some(|s|)
  {
    if s == "" {
      assert s + ")" + t == ")" + t;
    } else {
      assert (s + ")" + t)[1..] == s[1..] + ")" + t;
      ClosesAt(s[1..], t);
    }
  }

  lemma {:induction false} ScopeReads(scope: Option<string>, breaking: bool, desc: string)
    requires scope.Some? ==> scope.value != "" && ')' !in scope.value
    ensures Scope(ScopeText(scope) + Mark(breaking, desc)) == Some((scope, Mark(breaking, desc)))
    ensures !IsWord((ScopeText(scope) + Mark(breaking, desc))[0])
  {
    var rest := Mark(breaking, desc);
    match scope
    case None => assert ScopeText(scope) + rest == rest;
    case Some(inner) =>
      var s := ScopeText(scope) + rest;
      assert s[1..] == inner + ")" + rest;
      ClosesAt(inner, rest);
      assert s[1..][..|inner|] == inner && s[1..][|inner| + 1..] == rest;
  }

  /** Reading a conventional subject gives back its type, scope, mark and description, whatever the type's case. */
  lemma {:induction false} ConventionalReads(kind: string, scope: Option<string>, breaking: bool, desc: string, hash: string)
    requires Word(kind) && Known(LowerOf(kind)) && (scope.Some? ==> scope.value != "" && ')' !in scope.value)
    requires desc != "" && !IsSpace(desc[0]) && forall i :: 0 <= i < |desc| ==> !EndsLine(desc[i])
    ensures Classify(Subject(kind, scope, breaking, desc), hash) == Change(LowerOf(kind), scope, breaking, desc, hash)
  {
    PartsRead(kind, scope, breaking, desc);
    SubjectIs(kind, scope, breaking, desc);
  }

  lemma {:induction false} SubjectIs(kind: string, scope: Option<string>, breaking: bool, desc: string)
    ensures Subject(kind, scope, breaking, desc) == kind + (ScopeText(scope) + Mark(breaking, desc))
  {
  }

  lemma {:induction false} PartsRead(kind: string, scope: Option<string>, breaking: bool, desc: string)
    requires Word(kind) && (scope.Some? ==> scope.value != "" && ')' !in scope.value)
    requires desc != "" && !IsSpace(desc[0]) && forall i :: 0 <= i < |desc| ==> !EndsLine(desc[i])
    ensures Conventional(kind + (ScopeText(scope) + Mark(breaking, desc))) == Some((kind, scope, breaking, desc))
  {
    ScopeReads(scope, breaking, desc);
    EndingReads(breaking, desc);
    SubjectReads(kind, ScopeText(scope) + Mark(breaking, desc));
  }

  lemma {:induction false} SubjectReads(kind: string, after: string)
    requires Word(kind) && (after == "" || !IsWord(after[0])) && Scope(after).Some? && Ending(Scope(after).value.1).Some?
    ensures var (scope, rest) := Scope(after).value;
            var (breaking, desc) := Ending(rest).value;
            Conventional(kind + after) == Some((kind, scope, breaking, desc))
  {
    WordRunStops(kind, after);
    assert (kind + after)[..|kind|] == kind && (kind + after)[|kind|..] == after;
  }

  lemma {:induction false} EndingReads(breaking: bool, desc: string)
    requires desc != "" && !IsSpace(desc[0]) && forall i :: 0 <= i < |desc| ==> !EndsLine(desc[i])
    ensures Ending(Mark(breaking, desc)) == Some((breaking, desc))
  {
    var rest := Mark(breaking, desc);
    assert breaking ==> rest[1..] == ": " + desc;
    assert !breaking ==> rest == ": " + desc;
    assert (": " + desc)[1..] == " " + desc && (" " + desc)[1..] == desc;
    assert SkipSpaces(" " + desc) == SkipSpaces(desc) == desc;
  }

  /** Prose keeps its whole subject. */
  lemma {:induction false} ProseKeptWhole(subject: string, hash: string)
    requires Conventional(subject).None? || !Known(LowerOf(Conventional(subject).value.0))
    ensures var c := Classify(subject, hash); c.desc == subject && c.scope == None && !c.breaking && c.kind !in HIDDEN
  {
  }

  ghost predicate Blanks(s: string) {
    forall i :: 0 <= i < |s| ==> IsSpace(s[i])
  }

  /**
   * A subject in its parts: a word, a scope in parentheses or none, a mark or none, a colon, white space or none,
   * and a description on one line, which begins with white space only when nothing else is left.
   */
  ghost predicate Parts(subject: string, kind: string, scope: Option<string>, breaking: bool, gap: string, desc: string) {
    && Word(kind) && (scope.Some? ==> scope.value != "" && ')' !in scope.value) && Blanks(gap)
    && desc != "" && OnOneLine(desc)
    && (IsSpace(desc[0]) ==> |desc| == 1)
    && subject == kind + (ScopeText(scope) + ((if breaking then "!" else "") + ":" + (gap + desc)))
  }

  lemma {:induction false} SkipsBlanks(gap: string, s: string)
    requires Blanks(gap) && (s == "" || !IsSpace(s[0]))
    ensures SkipSpaces(gap + s) == s
  {
    if gap != "" {
      SkipsBlanks(gap[1..], s);
      assert (gap + s)[1..] == gap[1..] + s;
    } else {
      assert gap + s == s;
    }
  }

  lemma {:induction false} BlanksSkipped(s: string) returns (gap: string)
    ensures s == gap + SkipSpaces(s) && Blanks(gap)
    ensures SkipSpaces(s) != "" ==> !IsSpace(SkipSpaces(s)[0])
  {
    gap := "";
    if s != "" && IsSpace(s[0]) {
      var rest := BlanksSkipped(s[1..]);
      gap := [s[0]] + rest;
    }
  }

  /** A description is found exactly where there is one. */
  lemma {:induction false} DescriptionReads(gap: string, desc: string)
    requires Blanks(gap) && desc != "" && OnOneLine(desc) && (IsSpace(desc[0]) ==> |desc| == 1)
    ensures Description(gap + desc) == Some(desc)
  {
    if IsSpace(desc[0]) {
      SkipsBlanks(gap + desc, "");
      assert gap + desc + "" == gap + desc;
      assert [(gap + desc)[|gap + desc| - 1]] == desc;
    } else {
      SkipsBlanks(gap, desc);
    }
  }

  lemma {:induction false} OneLine(s: string, desc: string)
    requires Description(s) == Some(desc)
    ensures OnOneLine(desc)
  {
  }

  lemma {:induction false} DescriptionIsThere(s: string) returns (gap: string)
    requires Description(s).Some?
    ensures var desc := Description(s).value;
            && s == gap + desc && Blanks(gap) && desc != "" && (forall i :: 0 <= i < |desc| ==> !EndsLine(desc[i]))
            && (IsSpace(desc[0]) ==> |desc| == 1)
  {
    var desc := Description(s).value;
    gap := BlanksSkipped(s);
    if SkipSpaces(s) == "" {
      assert s == gap && desc == [s[|s| - 1]];
      gap := s[..|s| - 1];
      assert s == gap + desc;
    } else {
      assert desc == SkipSpaces(s) && !IsSpace(desc[0]);
    }
    OneLine(s, desc);
  }

  lemma {:induction false} ParenCloses(s: string)
    requires ClosingParen(s).Some?
    ensures var n := ClosingParen(s).value; n < |s| && s[n] == ')' && ')' !in s[..n]
  {
    if s[0] != ')' {
      ParenCloses(s[1..]);
      var n := ClosingParen(s[1..]).value;
      assert s[..n + 1] == [s[0]] + s[1..][..n];
    }
  }

  lemma {:induction false} ClosedText(t: string, n: nat)
    requires n < |t| && t[n] == ')'
    ensures "(" + t == "(" + t[..n] + ")" + t[n + 1..]
  {
    assert t == t[..n] + ")" + t[n + 1..];
  }

  lemma {:induction false} ScopeIsThere(s: string)
    requires Scope(s).Some?
    ensures var (scope, rest) := Scope(s).value;
            s == ScopeText(scope) + rest && (scope.Some? ==> scope.value != "" && ')' !in scope.value)
  {
    if s != "" && s[0] == '(' {
      var t := s[1..];
      ParenCloses(t);
      var n := ClosingParen(t).value;
      ClosedText(t, n);
      assert s == "(" + t;
    } else {
      assert s == "" + s;
    }
  }

  /** A conventional subject is read as its parts, and only a subject that has such parts is conventional. */
  lemma {:induction false} ConventionalIff(subject: string, kind: string, scope: Option<string>, breaking: bool, desc: string)
    ensures Conventional(subject) == Some((kind, scope, breaking, desc)) <==> exists gap :: Parts(subject, kind, scope, breaking, gap, desc)
  {
    if Conventional(subject) == Some((kind, scope, breaking, desc)) {
      var gap := PartsThere(subject, kind, scope, breaking, desc);
    }
    if gap :| Parts(subject, kind, scope, breaking, gap, desc) {
      PartsReadBack(kind, scope, breaking, gap, desc);
    }
  }

  lemma {:induction false} ColonIsThere(after: string, desc: string) returns (gap: string)
    requires after != "" && after[0] == ':' && Description(after[1..]) == Some(desc)
    ensures after == ":" + (gap + desc)
    ensures Blanks(gap) && desc != "" && OnOneLine(desc) && (IsSpace(desc[0]) ==> |desc| == 1)
  {
    gap := DescriptionIsThere(after[1..]);
    assert after == ":" + after[1..];
  }

  lemma {:induction false} MarkBefore(after: string, tail: string)
    requires after == ":" + tail
    ensures "!" + after == "!" + ":" + tail && after == "" + ":" + tail
  {}

  /** What stands after the mark, if there is one. */
  function AfterMark(rest: string): string {
    if rest != "" && rest[0] == '!' then rest[1..] else rest
  }

  lemma {:induction false} MarkIsThere(rest: string)
    ensures rest == (if rest != "" && rest[0] == '!' then "!" else "") + AfterMark(rest)
  {}

  lemma {:induction false} EndingReadsMark(rest: string, breaking: bool, desc: string)
    requires Ending(rest) == Some((breaking, desc))
    ensures breaking <==> rest != "" && rest[0] == '!'
    ensures AfterMark(rest) != "" && AfterMark(rest)[0] == ':' && Description(AfterMark(rest)[1..]) == Some(desc)
  {}

  lemma {:induction false} EndingIsThere(rest: string, breaking: bool, desc: string) returns (gap: string)
    requires Ending(rest) == Some((breaking, desc))
    ensures rest == (if breaking then "!" else "") + ":" + (gap + desc)
    ensures Blanks(gap) && desc != "" && OnOneLine(desc) && (IsSpace(desc[0]) ==> |desc| == 1)
  {
    EndingReadsMark(rest, breaking, desc);
    MarkIsThere(rest);
    gap := ColonIsThere(AfterMark(rest), desc);
    MarkBefore(AfterMark(rest), gap + desc);
  }

  lemma {:induction false} PartsThere(subject: string, kind: string, scope: Option<string>, breaking: bool, desc: string) returns (gap: string)
    requires Conventional(subject) == Some((kind, scope, breaking, desc))
    ensures Parts(subject, kind, scope, breaking, gap, desc)
  {
    var n := WordRun(subject);
    var s := subject[n..];
    ScopeIsThere(s);
    var rest := Scope(s).value.1;
    assert Scope(s) == Some((scope, rest)) && Ending(rest) == Some((breaking, desc));
    gap := EndingIsThere(rest, breaking, desc);
    PartsJoin(subject, n, s, ScopeText(scope), rest);
    assert kind == subject[..n] && Word(kind);
  }

  lemma {:induction false} PartsJoin(subject: string, n: nat, s: string, scope: string, rest: string)
    requires n <= |subject| && s == subject[n..] && s == scope + rest
    ensures subject == subject[..n] + (scope + rest)
  {}

  lemma {:induction false} PartsReadBack(kind: string, scope: Option<string>, breaking: bool, gap: string, desc: string)
    requires var ending := (if breaking then "!" else "") + ":" + (gap + desc);
             Parts(kind + (ScopeText(scope) + ending), kind, scope, breaking, gap, desc)
    ensures var ending := (if breaking then "!" else "") + ":" + (gap + desc);
            Conventional(kind + (ScopeText(scope) + ending)) == Some((kind, scope, breaking, desc))
  {
    var ending := (if breaking then "!" else "") + ":" + (gap + desc);
    EndingReadsBack(breaking, gap, desc);
    ScopeReadsBack(scope, ending);
    SubjectReads(kind, ScopeText(scope) + ending);
  }

  lemma {:induction false} EndingReadsBack(breaking: bool, gap: string, desc: string)
    requires Blanks(gap) && desc != "" && OnOneLine(desc) && (IsSpace(desc[0]) ==> |desc| == 1)
    ensures Ending((if breaking then "!" else "") + ":" + (gap + desc)) == Some((breaking, desc))
  {
    var rest := (if breaking then "!" else "") + ":" + (gap + desc);
    DescriptionReads(gap, desc);
    assert breaking ==> rest[1..] == ":" + (gap + desc);
    assert !breaking ==> rest == ":" + (gap + desc);
    assert (":" + (gap + desc))[1..] == gap + desc;
  }

  lemma {:induction false} ScopeReadsBack(scope: Option<string>, rest: string)
    requires scope.Some? ==> scope.value != "" && ')' !in scope.value
    requires rest != "" && (rest[0] == '!' || rest[0] == ':')
    ensures Scope(ScopeText(scope) + rest) == Some((scope, rest))
    ensures !IsWord((ScopeText(scope) + rest)[0])
  {
    match scope
    case None => assert ScopeText(scope) + rest == rest;
    case Some(inner) =>
      var s := ScopeText(scope) + rest;
      assert s[1..] == inner + ")" + rest;
      ClosesAt(inner, rest);
      assert s[1..][..|inner|] == inner && s[1..][|inner| + 1..] == rest;
  }

  /** A word character is a letter, a digit or an underscore; a line ends at one of four characters. */
  lemma {:induction false} CharactersAre(c: char)
    ensures IsWord(c) <==> c in "abcdefghijklmnopqrstuvwxyz" || c in "ABCDEFGHIJKLMNOPQRSTUVWXYZ" || c in "0123456789" || c == '_'
    ensures EndsLine(c) <==> c in "\n\r\U{2028}\U{2029}"
  {
    var small, capital, digits, ends := "abcdefghijklmnopqrstuvwxyz", "ABCDEFGHIJKLMNOPQRSTUVWXYZ", "0123456789", "\n\r\U{2028}\U{2029}";
    InOrder(small, 'a');
    InOrder(capital, 'A');
    InOrder(digits, '0');
    if 'a' <= c <= 'z' { assert small[c as int - 'a' as int] == c; }
    if 'A' <= c <= 'Z' { assert capital[c as int - 'A' as int] == c; }
    if '0' <= c <= '9' { assert digits[c as int - '0' as int] == c; }
    assert ends[0] == '\n' && ends[1] == '\r' && ends[2] as int == 0x2028 && ends[3] as int == 0x2029;
  }

  lemma {:induction false} InOrder(s: string, first: char)
    requires (s == "abcdefghijklmnopqrstuvwxyz" && first == 'a') || (s == "ABCDEFGHIJKLMNOPQRSTUVWXYZ" && first == 'A')
             || (s == "0123456789" && first == '0')
    ensures forall i :: 0 <= i < |s| ==> s[i] as int == first as int + i
  {}

  /** What is known: the five listed types and the six internal ones. */
  lemma {:induction false} KindsAre(kind: string)
    ensures Known(kind) <==>
              || kind == "feat" || kind == "fix" || kind == "perf" || kind == "revert" || kind == "other"
              || kind == "chore" || kind == "docs" || kind == "test" || kind == "style" || kind == "ci" || kind == "build"
  {
    assert SECTIONS[0].0 == "feat" && SECTIONS[1].0 == "fix" && SECTIONS[2].0 == "perf" && SECTIONS[3].0 == "revert"
           && SECTIONS[4].0 == "other";
  }

  /** Prose is filed by its first word, in any case: `fix` and `revert` under their own name, `add` and `feat` as a feature. */
  lemma {:induction false} ProseFiledUnder(word: string, rest: string)
    requires (forall i :: 0 <= i < |word| ==> IsWord(word[i])) && (rest == "" || !IsWord(rest[0]))
    ensures ProseKind(word + rest) ==
            if LowerOf(word) == "fix" then "fix"
            else if LowerOf(word) == "add" then "feat"
            else if LowerOf(word) == "feat" then "feat"
            else if LowerOf(word) == "revert" then "revert"
            else "other"
  {
    WordRunStops(word, rest);
    assert (word + rest)[..|word|] == word;
  }

  /** Only the capitals change. */
  lemma {:induction false} LowerIs(s: string)
    ensures |LowerOf(s)| == |s|
    ensures forall i :: 0 <= i < |s| ==> LowerOf(s)[i] == if 'A' <= s[i] <= 'Z' then 'a' + (s[i] - 'A') else s[i]
  {
    if s != "" {
      LowerIs(s[1..]);
    }
  }

  // ---------------------------------------------------------------------------
  // One section
  // ---------------------------------------------------------------------------

  datatype Line = Heading(text: string) | Bullet(change: Change) | Internal(count: nat) | Blank

  const BREAKING := "Breaking changes"

  function IsBreaking(): Change -> bool { (c: Change) => c.breaking }

  function IsInternal(): Change -> bool { (c: Change) => c.kind in HIDDEN && !c.breaking }

  function OfKind(kind: string): Change -> bool {
    (c: Change) => c.kind == kind && !c.breaking && c.kind !in HIDDEN
  }

  function ToBullet(): Change -> Line { (c: Change) => Bullet(c) }

  /** A heading, a bullet for each item and a blank line; nothing for no items. */
  function Block(heading: string, items: seq<Change>): seq<Line> {
    if items == [] then [] else [Heading(heading)] + Map(items, ToBullet()) + [Blank]
  }

  function Blocks(changes: seq<Change>, sections: seq<(string, string)>): seq<Line> {
    if sections == [] then Block(BREAKING, Filter(changes, IsBreaking()))
    else
      var last := sections[|sections| - 1];
      Blocks(changes, sections[..|sections| - 1]) + Block(last.1, Filter(changes, OfKind(last.0)))
  }

  /** The line that counts the internal changes, when there are any. */
  function Tail(hidden: nat): seq<Line> {
    if hidden > 0 then [Internal(hidden), Blank] else []
  }

  function Section(changes: seq<Change>): seq<Line> {
    Blocks(changes, SECTIONS) + Tail(|Filter(changes, IsInternal())|)
  }

  /** renderSection; an empty result is a section left out. */
  method RenderSection(changes: seq<Change>) returns (lines: seq<Line>)
    ensures lines == Section(changes)
  {
    var hidden := |Filter(changes, IsInternal())|;
    var breaking := Filter(changes, IsBreaking());
    lines := [];
    if breaking != [] {
      lines := lines + ([Heading(BREAKING)] + Map(breaking, ToBullet()) + [Blank]);
    }
    lines := ListSections(changes, lines, SECTIONS);
    if lines == [] && hidden == 0 {
      return [];
    }
    if hidden > 0 {
      lines := lines + [Internal(hidden), Blank];
    }
  }

  method ListSections(changes: seq<Change>, breaking: seq<Line>, sections: seq<(string, string)>) returns (lines: seq<Line>)
    requires breaking == Block(BREAKING, Filter(changes, IsBreaking()))
    ensures lines == Blocks(changes, sections)
  {
    lines := breaking;
    for i := 0 to |sections|
      invariant lines == Blocks(changes, sections[..i])
    {
      assert sections[..i + 1][..i] == sections[..i] && sections[..i + 1][i] == sections[i];
      var items := Filter(changes, OfKind(sections[i].0));
      if items != [] {
        lines := lines + ([Heading(sections[i].1)] + Map(items, ToBullet()) + [Blank]);
      }
    }
    assert sections[..|sections|] == sections;
  }

  function Unbroken(kind: string): Change -> bool { (c: Change) => c.kind == kind && !c.breaking }

  function Hushed(): Change -> bool {
    (c: Change) => !c.breaking && (c.kind == "chore" || c.kind == "docs" || c.kind == "test" || c.kind == "style" || c.kind == "ci" || c.kind == "build")
  }

  lemma {:induction false} SameKept<T>(s: seq<T>, p: T -> bool, q: T -> bool)
    requires forall x :: p(x) <==> q(x)
    ensures Filter(s, p) == Filter(s, q)
  {
    if s != [] {
      SameKept(s[1..], p, q);
    }
  }

  /** A section, heading by heading: the breaking changes, then the others by type, then how many are internal. */
  lemma {:induction false} SectionIs(changes: seq<Change>)
    ensures Section(changes)
            == Block("Breaking changes", Filter(changes, (c: Change) => c.breaking))
               + Block("Features", Filter(changes, Unbroken("feat")))
               + Block("Fixes", Filter(changes, Unbroken("fix")))
               + Block("Performance", Filter(changes, Unbroken("perf")))
               + Block("Reverts", Filter(changes, Unbroken("revert")))
               + Block("Other changes", Filter(changes, Unbroken("other")))
               + var n := |Filter(changes, Hushed())|; if n > 0 then [Internal(n), Blank] else []
  {
    SameKept(changes, IsBreaking(), (c: Change) => c.breaking);
    SameKept(changes, IsInternal(), Hushed());
    SameKept(changes, OfKind("feat"), Unbroken("feat"));
    SameKept(changes, OfKind("fix"), Unbroken("fix"));
    SameKept(changes, OfKind("perf"), Unbroken("perf"));
    SameKept(changes, OfKind("revert"), Unbroken("revert"));
    SameKept(changes, OfKind("other"), Unbroken("other"));
    BlocksUnfold(changes);
  }

  lemma {:induction false} BlocksUnfold(changes: seq<Change>)
    ensures Blocks(changes, SECTIONS)
            == Block(BREAKING, Filter(changes, IsBreaking()))
               + Block("Features", Filter(changes, OfKind("feat")))
               + Block("Fixes", Filter(changes, OfKind("fix")))
               + Block("Performance", Filter(changes, OfKind("perf")))
               + Block("Reverts", Filter(changes, OfKind("revert")))
               + Block("Other changes", Filter(changes, OfKind("other")))
  {
    FiveBlocks(changes, ("feat", "Features"), ("fix", "Fixes"), ("perf", "Performance"), ("revert", "Reverts"), ("other", "Other changes"));
    SectionsListed();
  }

  lemma {:induction false} SectionsListed()
    ensures SECTIONS == [] + [("feat", "Features")] + [("fix", "Fixes")] + [("perf", "Performance")] + [("revert", "Reverts")]
                        + [("other", "Other changes")]
  {}

  lemma {:induction false} FiveBlocks(changes: seq<Change>, a: (string, string), b: (string, string), c: (string, string),
                                      d: (string, string), e: (string, string))
    ensures Blocks(changes, [] + [a] + [b] + [c] + [d] + [e])
            == Block(BREAKING, Filter(changes, IsBreaking()))
               + Block(a.1, Filter(changes, OfKind(a.0)))
               + Block(b.1, Filter(changes, OfKind(b.0)))
               + Block(c.1, Filter(changes, OfKind(c.0)))
               + Block(d.1, Filter(changes, OfKind(d.0)))
               + Block(e.1, Filter(changes, OfKind(e.0)))
  {
    var none: seq<(string, string)> := [];
    TwoBlocks(changes, none, a.0, a.1, b.0, b.1);
    TwoBlocks(changes, none + [a] + [b], c.0, c.1, d.0, d.1);
    BlocksStep(changes, none + [a] + [b] + [c] + [d], e.0, e.1);
  }

  lemma {:induction false} TwoBlocks(changes: seq<Change>, sections: seq<(string, string)>, k: string, title: string, l: string, other: string)
    ensures Blocks(changes, sections + [(k, title)] + [(l, other)])
            == Blocks(changes, sections) + Block(title, Filter(changes, OfKind(k))) + Block(other, Filter(changes, OfKind(l)))
  {
    BlocksStep(changes, sections, k, title);
    BlocksStep(changes, sections + [(k, title)], l, other);
  }

  lemma {:induction false} BlocksStep(changes: seq<Change>, sections: seq<(string, string)>, kind: string, title: string)
    ensures Blocks(changes, sections + [(kind, title)]) == Blocks(changes, sections) + Block(title, Filter(changes, OfKind(kind)))
  {
    assert (sections + [(kind, title)])[..|sections|] == sections;
  }

  function BulletOf(): Line -> Option<Change> {
    (l: Line) => if l.Bullet? then Some(l.change) else None
  }

  /** The changes listed, in the order of their bullets. */
  function Listed(lines: seq<Line>): seq<Change> {
    FilterMap(lines, BulletOf())
  }

  lemma {:induction false} ListedBullets(items: seq<Change>)
    ensures Listed(Map(items, ToBullet())) == items
  {
    if items != [] {
      ListedBullets(items[1..]);
      assert Map(items, ToBullet())[1..] == Map(items[1..], ToBullet());
    }
  }

  lemma {:induction false} ListedBlock(heading: string, items: seq<Change>)
    ensures Listed(Block(heading, items)) == items
  {
    if items != [] {
      ListedBullets(items);
      var head, bullets, tail := [Heading(heading)], Map(items, ToBullet()), [Blank];
      FilterMapAppend(head + bullets, tail, BulletOf());
      FilterMapAppend(head, bullets, BulletOf());
      assert head[1..] == [] && tail[1..] == [];
    }
  }

  /** The kinds of the first sections. */
  ghost predicate Among(kind: string, sections: seq<(string, string)>) {
    exists i :: 0 <= i < |sections| && sections[i].0 == kind
  }

  ghost function ListedIn(sections: seq<(string, string)>): Change -> bool {
    (c: Change) => c.breaking || (c.kind !in HIDDEN && Among(c.kind, sections))
  }

  lemma {:induction false} FilterSplits(changes: seq<Change>, p: Change -> bool, q: Change -> bool, both: Change -> bool)
    requires forall c :: c in changes ==> !(p(c) && q(c)) && (both(c) <==> p(c) || q(c))
    ensures multiset(Filter(changes, both)) == multiset(Filter(changes, p)) + multiset(Filter(changes, q))
  {
    if changes != [] {
      assert changes[0] in changes;
      FilterSplits(changes[1..], p, q, both);
    }
  }

  ghost predicate DistinctKinds(sections: seq<(string, string)>) {
    forall i, j :: 0 <= i < j < |sections| ==> sections[i].0 != sections[j].0
  }

  lemma {:induction false} BlocksList(changes: seq<Change>, sections: seq<(string, string)>)
    requires DistinctKinds(sections)
    ensures multiset(Listed(Blocks(changes, sections))) == multiset(Filter(changes, ListedIn(sections)))
  {
    if sections == [] {
      ListedBlock(BREAKING, Filter(changes, IsBreaking()));
      FilterSplits(changes, IsBreaking(), (c: Change) => false, ListedIn(sections));
      NoneKept(changes);
    } else {
      var n := |sections| - 1;
      var kind, title := sections[n].0, sections[n].1;
      BlocksList(changes, sections[..n]);
      ListedBlock(title, Filter(changes, OfKind(kind)));
      FilterMapAppend(Blocks(changes, sections[..n]), Block(title, Filter(changes, OfKind(kind))), BulletOf());
      forall c | c in changes
        ensures !(ListedIn(sections[..n])(c) && OfKind(kind)(c))
        ensures ListedIn(sections)(c) <==> ListedIn(sections[..n])(c) || OfKind(kind)(c)
      {
        AmongStep(c.kind, sections);
      }
      FilterSplits(changes, ListedIn(sections[..n]), OfKind(kind), ListedIn(sections));
    }
  }

  lemma {:induction false} NoneKept(changes: seq<Change>)
    ensures Filter(changes, (c: Change) => false) == []
  {
    if changes != [] {
      NoneKept(changes[1..]);
    }
  }

  lemma {:induction false} AmongStep(kind: string, sections: seq<(string, string)>)
    requires sections != [] && DistinctKinds(sections)
    ensures var n := |sections| - 1;
            && (Among(kind, sections) <==> Among(kind, sections[..n]) || kind == sections[n].0)
            && !(Among(kind, sections[..n]) && kind == sections[n].0)
  {
    var n := |sections| - 1;
    if i :| 0 <= i < |sections| && sections[i].0 == kind {
      assert i < n ==> sections[..n][i].0 == kind;
    }
    if i :| 0 <= i < n && sections[..n][i].0 == kind {
      assert sections[i].0 == kind;
    }
  }

  lemma {:induction false} TailListsNothing(hidden: nat)
    ensures Listed(Tail(hidden)) == []
  {
    if hidden > 0 {
      var count, blank: seq<Line> := [Internal(hidden)], [Blank];
      assert Tail(hidden) == count + blank;
      FilterMapAppend(count, blank, BulletOf());
      assert count[1..] == [] && blank[1..] == [];
    }
  }

  /** The bullets are the changes that are breaking or of a listed type. */
  lemma {:induction false} SectionLists(changes: seq<Change>)
    ensures multiset(Listed(Section(changes))) == multiset(Filter(changes, ListedIn(SECTIONS)))
  {
    BlocksList(changes, SECTIONS);
    var hidden := |Filter(changes, IsInternal())|;
    TailListsNothing(hidden);
    FilterMapAppend(Blocks(changes, SECTIONS), Tail(hidden), BulletOf());
    assert Section(changes) == Blocks(changes, SECTIONS) + Tail(hidden);
    assert Listed(Section(changes)) == Listed(Blocks(changes, SECTIONS)) + [];
  }

  /** A change of a known type is listed or internal, never both. */
  lemma {:induction false} ListedOrInternal(changes: seq<Change>)
    requires forall c :: c in changes ==> Known(c.kind)
    ensures multiset(Filter(changes, ListedIn(SECTIONS))) + multiset(Filter(changes, IsInternal())) == multiset(changes)
  {
    forall c | c in changes
      ensures !(ListedIn(SECTIONS)(c) && IsInternal()(c)) && (ListedIn(SECTIONS)(c) || IsInternal()(c))
    {
      assert Known(c.kind) <==> c.kind in HIDDEN || Among(c.kind, SECTIONS);
    }
    FilterSplits(changes, ListedIn(SECTIONS), IsInternal(), (c: Change) => true);
    AllKept(changes);
  }

  /** No change is lost and none is listed twice: each is one bullet, or one of the internal changes counted. */
  lemma {:induction false} EveryChangeOnce(changes: seq<Change>)
    requires forall c :: c in changes ==> Known(c.kind)
    ensures multiset(Listed(Section(changes))) + multiset(Filter(changes, IsInternal())) == multiset(changes)
  {
    SectionLists(changes);
    ListedOrInternal(changes);
  }

  /** The count is the number of internal changes, on one line, when there are any; a section is left out only when it has no change. */
  lemma {:induction false} InternalChangesCounted(changes: seq<Change>)
    requires forall c :: c in changes ==> Known(c.kind)
    ensures forall l :: l in Section(changes) && l.Internal? ==> l.count == |Filter(changes, IsInternal())|
    ensures Filter(changes, IsInternal()) != [] ==> Internal(|Filter(changes, IsInternal())|) in Section(changes)
    ensures Section(changes) == [] <==> changes == []
  {
    var tail := Tail(|Filter(changes, IsInternal())|);
    assert Section(changes) == Blocks(changes, SECTIONS) + tail;
    BlocksHoldNoCount(changes, SECTIONS);
    if changes == [] {
      BlocksOfNone(SECTIONS);
    } else {
      EveryChangeOnce(changes);
      assert changes[0] in multiset(changes);
    }
    assert tail != [] ==> tail[0] in Section(changes);
  }

  lemma {:induction false} AllKept(changes: seq<Change>)
    ensures Filter(changes, (c: Change) => true) == changes
  {
    if changes != [] {
      AllKept(changes[1..]);
    }
  }

  lemma {:induction false} BlocksHoldNoCount(changes: seq<Change>, sections: seq<(string, string)>)
    ensures forall l :: l in Blocks(changes, sections) ==> !l.Internal?
  {
    if sections != [] {
      BlocksHoldNoCount(changes, sections[..|sections| - 1]);
    }
  }

  lemma {:induction false} BlocksOfNone(sections: seq<(string, string)>)
    ensures Blocks([], sections) == []
  {
    if sections != [] {
      BlocksOfNone(sections[..|sections| - 1]);
    }
  }

  /** A block lists only changes that belong under its heading: breaking ones, or unbroken ones of its type. */
  lemma {:induction false} BlocksKeepTheirOwn(changes: seq<Change>, kind: string, c: Change)
    ensures c in Listed(Block(BREAKING, Filter(changes, IsBreaking()))) <==> c in changes && c.breaking
    ensures c in Listed(Block(kind, Filter(changes, OfKind(kind)))) <==>
              c in changes && !c.breaking && c.kind == kind && kind !in HIDDEN
  {
    ListedBlock(BREAKING, Filter(changes, IsBreaking()));
    ListedBlock(kind, Filter(changes, OfKind(kind)));
    FilterMember(changes, IsBreaking(), c);
    FilterMember(changes, OfKind(kind), c);
  }

  // ---------------------------------------------------------------------------
  // The release ranges
  // ---------------------------------------------------------------------------

  function DigitRun(s: string): (n: nat)
    ensures n <= |s|
  {
    if s != "" && IsDigit(s[0]) then 1 + DigitRun(s[1..]) else 0
  }

  function SolidRun(s: string): (n: nat)
    ensures n <= |s|
  {
    if s != "" && !IsSpace(s[0]) then 1 + SolidRun(s[1..]) else 0
  }

  /** What follows `\d+\.` at the start of `s`. */
  function AfterNumber(s: string): (rest: Option<string>)
    ensures rest.Some? ==> |rest.value| <= |s|
  {
    var n := DigitRun(s);
    if n == 0 || n >= |s| || s[n] != '.' then None else Some(s[n + 1..])
  }

  /** `^\d+\.\d+\.\d+\S*`. */
  function LeadingVersion(s: string): Option<string> {
    match AfterNumber(s)
    case None => None
    case Some(t) =>
      match AfterNumber(t)
      case None => None
      case Some(u) => if DigitRun(u) == 0 then None else Some(s[..|s| - |u| + SolidRun(u)])
  }

  /** The first `maxstack@` followed by a version. */
  function VersionOf(subject: string): Option<string> {
    if subject == "" then None
    else if "maxstack@" <= subject && LeadingVersion(subject[9..]).Some? then LeadingVersion(subject[9..])
    else VersionOf(subject[1..])
  }

  lemma {:induction false} DigitRunStops(s: string, t: string)
    requires Digits(s) && (t == "" || !IsDigit(t[0]))
    ensures DigitRun(s + t) == |s|
  {
    if s == "" {
      assert s + t == t;
    } else {
      assert (s + t)[1..] == s[1..] + t;
      DigitRunStops(s[1..], t);
    }
  }

  lemma {:induction false} SolidRunStops(s: string)
    requires forall i :: 0 <= i < |s| ==> !IsSpace(s[i])
    ensures SolidRun(s) == |s|
  {
    if s != "" {
      SolidRunStops(s[1..]);
    }
  }

  ghost predicate Number(s: string) {
    s != "" && Digits(s)
  }

  /** A version: three numbers, and a suffix that holds no space and does not begin with a digit. */
  function Version(a: string, b: string, c: string, suffix: string): string {
    a + "." + (b + "." + (c + suffix))
  }

  ghost predicate Suffix(s: string) {
    (forall i :: 0 <= i < |s| ==> !IsSpace(s[i])) && (s == "" || !IsDigit(s[0]))
  }

  /** A version is read whole. */
  lemma {:induction false} VersionReads(a: string, b: string, c: string, suffix: string)
    requires Number(a) && Number(b) && Number(c) && Suffix(suffix)
    ensures LeadingVersion(Version(a, b, c, suffix)) == Some(Version(a, b, c, suffix))
  {
    var s, u := Version(a, b, c, suffix), c + suffix;
    NumberReads(a, b + "." + u);
    NumberReads(b, u);
    DigitRunStops(c, suffix);
    SolidRunStops(u);
    assert s[..|s|] == s;
  }

  lemma {:induction false} NumberReads(n: string, rest: string)
    requires Number(n)
    ensures AfterNumber(n + "." + rest) == Some(rest)
  {
    DigitRunStops(n, "." + rest);
    assert n + "." + rest == n + ("." + rest);
    assert (n + "." + rest)[|n| + 1..] == rest;
  }

  lemma {:induction false} VersionAfter(prefix: string, rest: string)
    requires 'm' !in prefix
    ensures VersionOf(prefix + rest) == VersionOf(rest)
  {
    if prefix == "" {
      assert prefix + rest == rest;
    } else {
      assert (prefix + rest)[1..] == prefix[1..] + rest && (prefix + rest)[0] == prefix[0];
      VersionAfter(prefix[1..], rest);
    }
  }

  /** A release's own subject is a release of exactly the version it names. */
  lemma {:induction false} ReleaseReads(a: string, b: string, c: string, suffix: string, hash: string)
    requires Number(a) && Number(b) && Number(c) && Suffix(suffix)
    ensures var version := Version(a, b, c, suffix);
            && IsRelease(Commit(hash, "chore(release): maxstack@" + version, true))
            && VersionOf("chore(release): maxstack@" + version) == Some(version)
  {
    VersionReads(a, b, c, suffix);
    NamedVersion(Version(a, b, c, suffix));
  }

  lemma {:induction false} NamedVersion(version: string)
    requires LeadingVersion(version) == Some(version)
    ensures VersionOf("chore(release): maxstack@" + version) == Some(version)
  {
    assert "chore(release): maxstack@" + version == "chore(release): " + ("maxstack@" + version);
    VersionNamed("chore(release): ", version);
  }

  lemma {:induction false} VersionNamed(prefix: string, version: string)
    requires 'm' !in prefix && LeadingVersion(version) == Some(version)
    ensures VersionOf(prefix + ("maxstack@" + version)) == Some(version)
  {
    VersionAfter(prefix, "maxstack@" + version);
    assert ("maxstack@" + version)[9..] == version;
  }

  /** The digits at the start of a text, and no more of them. */
  lemma {:induction false} DigitsRun(s: string)
    ensures Digits(s[..DigitRun(s)]) && (DigitRun(s) < |s| ==> !IsDigit(s[DigitRun(s)]))
  {
    if s != "" && IsDigit(s[0]) {
      DigitsRun(s[1..]);
      var n := DigitRun(s[1..]);
      assert s[..n + 1] == [s[0]] + s[1..][..n];
    }
  }

  lemma {:induction false} SolidRuns(s: string)
    ensures (forall i :: 0 <= i < SolidRun(s) ==> !IsSpace(s[i])) && (SolidRun(s) < |s| ==> IsSpace(s[SolidRun(s)]))
  {
    if s != "" && !IsSpace(s[0]) {
      SolidRuns(s[1..]);
      assert forall i :: 0 < i < SolidRun(s) ==> s[i] == s[1..][i - 1];
    }
  }

  lemma {:induction false} NumberIsThere(s: string)
    requires AfterNumber(s).Some?
    ensures var n := DigitRun(s); Number(s[..n]) && s == s[..n] + "." + AfterNumber(s).value
  {
    DigitsRun(s);
  }

  /** The last number of a version and what goes with it: up to the next white space or the end. */
  lemma {:induction false} LastPartIsThere(u: string)
    requires DigitRun(u) > 0
    ensures DigitRun(u) <= SolidRun(u)
    ensures var c, suffix := u[..DigitRun(u)], u[DigitRun(u)..SolidRun(u)];
            Number(c) && Suffix(suffix) && u[..SolidRun(u)] == c + suffix
    ensures SolidRun(u) < |u| ==> IsSpace(u[SolidRun(u)])
  {
    DigitsRun(u);
    SolidRuns(u);
    DigitsAreSolid(u);
    var suffix := u[DigitRun(u)..SolidRun(u)];
    forall i | 0 <= i < |suffix|
      ensures !IsSpace(suffix[i])
    {
      assert suffix[i] == u[DigitRun(u) + i];
    }
  }

  lemma {:induction false} VersionFront(s: string, a: string, b: string, u: string, n: nat)
    requires s == a + "." + (b + "." + u) && n <= |u|
    ensures |u| <= |s| && s[..|s| - |u| + n] == a + "." + (b + "." + u[..n])
    ensures n < |u| ==> s[|s| - |u| + n] == u[n]
  {
    var front := a + "." + (b + ".");
    assert s == front + u;
    assert s[..|front| + n] == front + u[..n];
    assert front + u[..n] == a + "." + (b + "." + u[..n]);
  }

  lemma {:induction false} FrontIs(s: string, a: string, t: string, b: string, u: string)
    requires s == a + "." + t && t == b + "." + u
    ensures s == a + "." + (b + "." + u)
  {}

  /** A version found at the start of a text is three numbers and a suffix, and goes on to the next white space or the end. */
  lemma {:induction false} VersionIsThere(s: string) returns (a: string, b: string, c: string, suffix: string)
    requires LeadingVersion(s).Some?
    ensures Number(a) && Number(b) && Number(c) && Suffix(suffix) && LeadingVersion(s).value == Version(a, b, c, suffix)
    ensures var v := LeadingVersion(s).value; v <= s && (|v| < |s| ==> IsSpace(s[|v|]))
  {
    var t := AfterNumber(s).value;
    var u := AfterNumber(t).value;
    NumberIsThere(s);
    NumberIsThere(t);
    LastPartIsThere(u);
    a, b, c, suffix := s[..DigitRun(s)], t[..DigitRun(t)], u[..DigitRun(u)], u[DigitRun(u)..SolidRun(u)];
    FrontIs(s, a, t, b, u);
    VersionFront(s, a, b, u, SolidRun(u));
  }

  lemma {:induction false} DigitsAreSolid(s: string)
    ensures DigitRun(s) <= SolidRun(s)
  {
    if s != "" && IsDigit(s[0]) {
      DigitsAreSolid(s[1..]);
    }
  }

  /** The subject holds `maxstack@` and a version at place `k`. */
  ghost predicate NamesAt(subject: string, k: nat) {
    k + 9 <= |subject| && subject[k..k + 9] == "maxstack@" && LeadingVersion(subject[k + 9..]).Some?
  }

  lemma {:induction false} NamesLater(subject: string, k: nat)
    requires subject != ""
    ensures NamesAt(subject, k + 1) <==> NamesAt(subject[1..], k)
  {
    if k + 9 <= |subject[1..]| {
      assert subject[1..][k..k + 9] == subject[k + 1..k + 1 + 9];
      assert subject[1..][k + 9..] == subject[k + 1 + 9..];
    }
  }

  lemma {:induction false} NamesFirst(subject: string)
    ensures NamesAt(subject, 0) <==> |subject| >= 9 && "maxstack@" <= subject && LeadingVersion(subject[9..]).Some?
  {
    assert |"maxstack@"| == 9;
    if |subject| >= 9 {
      assert subject[0..9] == subject[..9] && subject[0 + 9..] == subject[9..];
    }
  }

  /** The version a subject names is the one at the first place that holds one; it names none when no place does. */
  lemma {:induction false} VersionFound(subject: string, k: nat)
    ensures NamesAt(subject, k) && (forall j: nat :: j < k ==> !NamesAt(subject, j)) ==> VersionOf(subject) == LeadingVersion(subject[k + 9..])
    ensures (forall j: nat :: !NamesAt(subject, j)) ==> VersionOf(subject) == None
  {
    NamesFirst(subject);
    if subject != "" && !NamesAt(subject, 0) {
      if k > 0 {
        VersionFound(subject[1..], k - 1);
        NamesLater(subject, k - 1);
        assert NamesAt(subject, k) ==> subject[1..][k - 1 + 9..] == subject[k + 9..];
      } else {
        VersionFound(subject[1..], 0);
      }
      forall j: nat
        ensures NamesAt(subject, j + 1) <==> NamesAt(subject[1..], j)
      {
        NamesLater(subject, j);
      }
    }
  }

  predicate IsRelease(c: Commit) {
    c.mentions && VersionOf(c.subject).Some?
  }

  /** Where the releases are at or after place `i`, newest first. */
  function Releases(commits: seq<Commit>, i: nat): (r: seq<nat>)
    requires i <= |commits|
    ensures forall k :: 0 <= k < |r| ==> i <= r[k] < |commits| && IsRelease(commits[r[k]])
    ensures forall k, l :: 0 <= k < l < |r| ==> r[k] < r[l]
    decreases |commits| - i
  {
    if i == |commits| then []
    else if IsRelease(commits[i]) then [i] + Releases(commits, i + 1)
    else Releases(commits, i + 1)
  }

  /** Every release is found, and its message mentions it and its subject names a version. */
  lemma {:induction false} ReleasesAre(commits: seq<Commit>, i: nat, k: nat)
    requires i <= k < |commits|
    ensures k in Releases(commits, i) <==> commits[k].mentions && VersionOf(commits[k].subject).Some?
    decreases |commits| - i
  {
    if i < k {
      ReleasesAre(commits, i + 1, k);
    }
  }

  /** A section's commits: from place `start` up to `end`, the previous release; `oldest` when there is none. */
  datatype Bound = Bound(version: string, start: nat, end: nat, oldest: bool)

  function BoundAt(commits: seq<Commit>, releases: seq<nat>, i: nat): Bound
    requires i < |releases| && forall k :: 0 <= k < |releases| ==> releases[k] < |commits| && IsRelease(commits[releases[k]])
  {
    assert IsRelease(commits[releases[i]]);
    Bound(VersionOf(commits[releases[i]].subject).value, releases[i],
          if i + 1 < |releases| then releases[i + 1] else |commits|, i + 1 == |releases|)
  }

  function BoundsFrom(commits: seq<Commit>, releases: seq<nat>, n: nat): seq<Bound>
    requires n <= |releases| && forall k :: 0 <= k < |releases| ==> releases[k] < |commits| && IsRelease(commits[releases[k]])
  {
    if n == 0 then [] else BoundsFrom(commits, releases, n - 1) + [BoundAt(commits, releases, n - 1)]
  }

  /** Whether the staged version still has no release commit at the top of the history. */
  predicate Staging(commits: seq<Commit>, staged: string) {
    var releases := Releases(commits, 0);
    releases == [] || VersionOf(commits[releases[0]].subject) != Some(staged)
  }

  /** The section on top, while the staged version is still being staged. */
  function TopBound(commits: seq<Commit>, staged: string): (top: seq<Bound>)
    ensures |top| <= 1
  {
    var releases := Releases(commits, 0);
    if Staging(commits, staged) then [Bound(staged, 0, if releases == [] then |commits| else releases[0], releases == [])] else []
  }

  function Bounds(commits: seq<Commit>, staged: string): seq<Bound> {
    TopBound(commits, staged) + BoundsFrom(commits, Releases(commits, 0), |Releases(commits, 0)|)
  }

  method BuildBounds(commits: seq<Commit>, staged: string) returns (bounds: seq<Bound>)
    ensures bounds == Bounds(commits, staged)
  {
    var releases := Releases(commits, 0);
    bounds := [];
    if Staging(commits, staged) {
      bounds := bounds + [Bound(staged, 0, if releases == [] then |commits| else releases[0], releases == [])];
    }
    var made := PairReleases(commits, releases);
    bounds := bounds + made;
  }

  method PairReleases(commits: seq<Commit>, releases: seq<nat>) returns (bounds: seq<Bound>)
    requires forall k :: 0 <= k < |releases| ==> releases[k] < |commits| && IsRelease(commits[releases[k]])
    ensures bounds == BoundsFrom(commits, releases, |releases|)
  {
    bounds := [];
    for i := 0 to |releases|
      invariant bounds == BoundsFrom(commits, releases, i)
    {
      bounds := bounds + [BoundAt(commits, releases, i)];
    }
  }

  /** Ranges that follow on from one another, from `start` to `end`. */
  ghost predicate Tiles(bounds: seq<Bound>, start: nat, end: nat) {
    if bounds == [] then start == end
    else
      var last := bounds[|bounds| - 1];
      start <= last.start <= last.end == end && Tiles(bounds[..|bounds| - 1], start, last.start)
  }

  lemma {:induction false} TilesAppend(a: seq<Bound>, b: Bound, start: nat, end: nat)
    requires Tiles(a, start, end) && start <= end && b.start == end && b.start <= b.end
    ensures Tiles(a + [b], start, b.end)
  {
    assert (a + [b])[..|a|] == a;
  }

  /** Where the covered history begins: at the top, or at the release already made of the staged version. */
  function Top(commits: seq<Commit>, staged: string): nat {
    if Staging(commits, staged) then 0 else Releases(commits, 0)[0]
  }

  /** Each range ends where the next begins. */
  ghost predicate Linked(bounds: seq<Bound>) {
    && (forall k :: 0 <= k < |bounds| ==> bounds[k].start <= bounds[k].end)
    && (forall k :: 0 < k < |bounds| ==> bounds[k - 1].end == bounds[k].start)
  }

  lemma {:induction false} LinkedTile(top: seq<Bound>, bounds: seq<Bound>, start: nat)
    requires bounds != [] && Linked(bounds) && start <= bounds[0].start && Tiles(top, start, bounds[0].start)
    ensures start <= bounds[|bounds| - 1].start && Tiles(top + bounds, start, bounds[|bounds| - 1].end)
  {
    var n := |bounds| - 1;
    if n == 0 {
      assert bounds == [bounds[0]];
      TilesAppend(top, bounds[0], start, bounds[0].start);
    } else {
      LinkedTile(top, bounds[..n], start);
      assert bounds[n - 1].end == bounds[n].start;
      TilesAppend(top + bounds[..n], bounds[n], start, bounds[n].start);
      assert top + bounds == top + bounds[..n] + [bounds[n]];
    }
  }

  lemma {:induction false} BoundsLinked(commits: seq<Commit>)
    ensures var releases := Releases(commits, 0);
            var bounds := BoundsFrom(commits, releases, |releases|);
            && |bounds| == |releases| && Linked(bounds)
            && (bounds != [] ==> bounds[0].start == releases[0] && bounds[|bounds| - 1].end == |commits|)
  {
    var releases := Releases(commits, 0);
    var bounds := BoundsFrom(commits, releases, |releases|);
    BoundsCount(commits, releases, |releases|);
    forall k | 0 <= k < |releases|
      ensures bounds[k] == BoundAt(commits, releases, k) && bounds[k].start <= bounds[k].end
    {
      BoundsAt(commits, releases, |releases|, k);
    }
  }

  /** The ranges tile the covered history: every covered commit is in exactly one. */
  lemma {:induction false} RangesTile(commits: seq<Commit>, staged: string)
    ensures Tiles(Bounds(commits, staged), Top(commits, staged), |commits|)
    ensures Top(commits, staged) <= |commits|
  {
    var releases := Releases(commits, 0);
    var top := TopBound(commits, staged);
    assert top != [] ==> top[..0] == [];
    BoundsLinked(commits);
    if releases == [] {
      assert top + [] == top;
    } else {
      assert Tiles(top, Top(commits, staged), releases[0]);
      LinkedTile(top, BoundsFrom(commits, releases, |releases|), Top(commits, staged));
    }
  }

  // ---------------------------------------------------------------------------
  // The whole log
  // ---------------------------------------------------------------------------

  /** What the sections leave out as a release's own: any subject that begins so, whether it names a version or not. */
  predicate Housekeeping(c: Commit) {
    "chore(release)" <= c.subject
  }

  function Told(): Commit -> Option<Change> {
    (c: Commit) => if Housekeeping(c) then None else Some(Classify(c.subject, c.hash))
  }

  function ChangesOf(commits: seq<Commit>): seq<Change> {
    FilterMap(commits, Told())
  }

  lemma {:induction false} ToldIsKnown(commits: seq<Commit>)
    ensures forall c :: c in ChangesOf(commits) ==> Known(c.kind)
  {
    if commits != [] {
      ToldIsKnown(commits[1..]);
      ClassifiedIsKnown(commits[0].subject, commits[0].hash);
    }
  }

  /** The changes of each range in turn. */
  function ChangesOver(commits: seq<Commit>, bounds: seq<Bound>): seq<Change>
    requires forall i :: 0 <= i < |bounds| ==> bounds[i].start <= bounds[i].end <= |commits|
  {
    if bounds == [] then []
    else
      var last := bounds[|bounds| - 1];
      ChangesOver(commits, bounds[..|bounds| - 1]) + ChangesOf(commits[last.start..last.end])
  }

  lemma {:induction false} TilesBounded(bounds: seq<Bound>, start: nat, end: nat, i: nat)
    requires Tiles(bounds, start, end) && i < |bounds|
    ensures start <= bounds[i].start <= bounds[i].end <= end
  {
    if i < |bounds| - 1 {
      TilesBounded(bounds[..|bounds| - 1], start, bounds[|bounds| - 1].start, i);
    }
  }

  /** Ranges that tile a stretch of history give, one after another, exactly its changes. */
  lemma {:induction false} TilingLosesNothing(commits: seq<Commit>, bounds: seq<Bound>, start: nat, end: nat)
    requires start <= end <= |commits| && Tiles(bounds, start, end)
    requires forall i :: 0 <= i < |bounds| ==> bounds[i].start <= bounds[i].end <= |commits|
    ensures ChangesOver(commits, bounds) == ChangesOf(commits[start..end])
  {
    if bounds == [] {
      assert commits[start..end] == [];
    } else {
      var n := |bounds| - 1;
      TilingLosesNothing(commits, bounds[..n], start, bounds[n].start);
      assert commits[start..end] == commits[start..bounds[n].start] + commits[bounds[n].start..end];
      FilterMapAppend(commits[start..bounds[n].start], commits[bounds[n].start..end], Told());
    }
  }

  /**
   * With an archive behind it, the changelog's sections together tell each covered commit whose subject
   * does not begin with `chore(release)` exactly once, newest first, and no other.
   */
  lemma {:induction false} NothingIsLost(commits: seq<Commit>, staged: string)
    ensures forall i :: 0 <= i < |Bounds(commits, staged)| ==>
                          Bounds(commits, staged)[i].start <= Bounds(commits, staged)[i].end <= |commits|
    ensures Top(commits, staged) <= |commits|
    ensures ChangesOver(commits, Bounds(commits, staged)) == ChangesOf(commits[Top(commits, staged)..])
  {
    RangesTile(commits, staged);
    forall i | 0 <= i < |Bounds(commits, staged)|
      ensures Bounds(commits, staged)[i].start <= Bounds(commits, staged)[i].end <= |commits|
    {
      TilesBounded(Bounds(commits, staged), Top(commits, staged), |commits|, i);
    }
    TilingLosesNothing(commits, Bounds(commits, staged), Top(commits, staged), |commits|);
    assert commits[Top(commits, staged)..|commits|] == commits[Top(commits, staged)..];
  }

  /** What the sections tell, commit by commit: its type, scope, mark and text as its subject gives them, and its hash. */
  lemma {:induction false} ChangesAre(commits: seq<Commit>)
    ensures ChangesOf(commits)
            == FilterMap(commits, (c: Commit) => if "chore(release)" <= c.subject then None else Some(Classify(c.subject, c.hash)))
    ensures forall c :: c in commits ==> Classify(c.subject, c.hash).hash == c.hash
  {
    if commits != [] {
      ChangesAre(commits[1..]);
    }
  }

  // --- what is dropped as a release's own ---

  ghost predicate DistinctHashes(commits: seq<Commit>) {
    forall i, j :: 0 <= i < j < |commits| ==> commits[i].hash != commits[j].hash
  }

  ghost predicate TellsOf(changes: seq<Change>, hash: string) {
    exists i :: 0 <= i < |changes| && changes[i].hash == hash
  }

  /** A change for each commit that is no release. */
  function Unreleased(): Commit -> Option<Change> {
    (c: Commit) => if IsRelease(c) then None else Some(Classify(c.subject, c.hash))
  }

  /** Which hashes a list of changes made from commits tells of. */
  lemma {:induction false} TellsOfCommits(commits: seq<Commit>, f: Commit -> Option<Change>, hash: string)
    requires forall c :: c in commits && f(c).Some? ==> f(c).value.hash == c.hash
    ensures TellsOf(FilterMap(commits, f), hash) <==> exists c :: c in commits && f(c).Some? && c.hash == hash
  {
    if commits != [] {
      var rest, all := FilterMap(commits[1..], f), FilterMap(commits, f);
      TellsOfCommits(commits[1..], f, hash);
      assert forall c :: c in commits <==> c == commits[0] || c in commits[1..];
      var head := match f(commits[0]) case None => [] case Some(b) => [b];
      assert all == head + rest;
      if TellsOf(rest, hash) {
        var i :| 0 <= i < |rest| && rest[i].hash == hash;
        assert all[i + |head|].hash == hash;
      }
      if f(commits[0]).Some? && commits[0].hash == hash {
        assert all[0].hash == hash;
      }
    }
  }

  lemma {:induction false} OneCommitOfHash(commits: seq<Commit>, f: Commit -> Option<Change>, k: nat)
    requires DistinctHashes(commits) && k < |commits|
    requires forall c :: c in commits && f(c).Some? ==> f(c).value.hash == c.hash
    ensures TellsOf(FilterMap(commits, f), commits[k].hash) <==> f(commits[k]).Some?
  {
    TellsOfCommits(commits, f, commits[k].hash);
    if c :| c in commits && f(c).Some? && c.hash == commits[k].hash {
      var i :| 0 <= i < |commits| && commits[i] == c;
      assert i == k;
    }
    assert commits[k] in commits;
  }

  lemma {:induction false} ToldIffNoHousekeeping(covered: seq<Commit>, k: nat)
    requires DistinctHashes(covered) && k < |covered|
    ensures TellsOf(ChangesOf(covered), covered[k].hash) <==> !Housekeeping(covered[k])
  {
    var f := Told();
    forall c
      ensures f(c).Some? ==> f(c).value.hash == c.hash
      ensures f(c).None? <==> Housekeeping(c)
    {
      ToldOrReleased(c);
    }
    OneCommitOfHash(covered, f, k);
  }

  lemma {:induction false} ToldInTail(commits: seq<Commit>, top: nat, k: nat)
    requires DistinctHashes(commits) && top <= k < |commits|
    ensures TellsOf(ChangesOf(commits[top..]), commits[k].hash) <==> !Housekeeping(commits[k])
  {
    LaterHashesDiffer(commits, top);
    ToldIffNoHousekeeping(commits[top..], k - top);
  }

  lemma {:induction false} LaterHashesDiffer(commits: seq<Commit>, top: nat)
    requires DistinctHashes(commits) && top <= |commits|
    ensures DistinctHashes(commits[top..])
  {
    var tail := commits[top..];
    forall i, j | 0 <= i < j < |tail|
      ensures tail[i].hash != tail[j].hash
    {
      assert tail[i] == commits[top + i] && tail[j] == commits[top + j];
    }
  }

  lemma {:induction false} ToldOrHousekeeping(commits: seq<Commit>, staged: string, k: nat)
    requires DistinctHashes(commits) && Top(commits, staged) <= k < |commits|
    ensures forall i :: 0 <= i < |Bounds(commits, staged)| ==>
                          Bounds(commits, staged)[i].start <= Bounds(commits, staged)[i].end <= |commits|
    ensures !TellsOf(ChangesOver(commits, Bounds(commits, staged)), commits[k].hash) <==> Housekeeping(commits[k])
  {
    NothingIsLost(commits, staged);
    ToldInTail(commits, Top(commits, staged), k);
  }

  /** A covered commit is told nowhere exactly when its subject begins with `chore(release)`. */
  lemma {:induction false} ToldNowhereIff(commits: seq<Commit>, staged: string, k: nat)
    requires DistinctHashes(commits) && Top(commits, staged) <= k < |commits|
    ensures forall i :: 0 <= i < |Bounds(commits, staged)| ==>
                          Bounds(commits, staged)[i].start <= Bounds(commits, staged)[i].end <= |commits|
    ensures !TellsOf(ChangesOver(commits, Bounds(commits, staged)), commits[k].hash) <==> "chore(release)" <= commits[k].subject
  {
    ToldOrHousekeeping(commits, staged, k);
    BeginsSo(commits[k]);
  }

  lemma {:induction false} BeginsSo(c: Commit)
    ensures Housekeeping(c) <==> "chore(release)" <= c.subject
  {}

  lemma {:induction false} SameImages(commits: seq<Commit>, f: Commit -> Option<Change>, g: Commit -> Option<Change>)
    requires forall c :: c in commits ==> f(c) == g(c)
    ensures FilterMap(commits, f) == FilterMap(commits, g)
  {
    if commits != [] {
      SameImages(commits[1..], f, g);
    }
  }

  /** Two ways of telling commits that differ at most in which they tell give the same changes exactly when they tell the same. */
  lemma {:induction false} SameToldIff(commits: seq<Commit>, f: Commit -> Option<Change>, g: Commit -> Option<Change>)
    requires DistinctHashes(commits)
    requires forall c :: c in commits && f(c).Some? ==> f(c).value.hash == c.hash
    requires forall c :: c in commits && g(c).Some? ==> g(c).value.hash == c.hash
    requires forall c :: c in commits && f(c).Some? && g(c).Some? ==> f(c) == g(c)
    ensures FilterMap(commits, f) == FilterMap(commits, g) <==> forall c :: c in commits ==> (f(c).None? <==> g(c).None?)
  {
    if FilterMap(commits, f) == FilterMap(commits, g) {
      forall c | c in commits
        ensures f(c).None? <==> g(c).None?
      {
        var k :| 0 <= k < |commits| && commits[k] == c;
        OneCommitOfHash(commits, f, k);
        OneCommitOfHash(commits, g, k);
      }
    }
    if forall c :: c in commits ==> (f(c).None? <==> g(c).None?) {
      SameImages(commits, f, g);
    }
  }

  lemma {:induction false} ToldOrReleased(c: Commit)
    ensures Told()(c).None? <==> Housekeeping(c)
    ensures Unreleased()(c).None? <==> IsRelease(c)
    ensures Told()(c).Some? ==> Told()(c).value == Classify(c.subject, c.hash) && Told()(c).value.hash == c.hash
    ensures Unreleased()(c).Some? ==> Unreleased()(c).value == Classify(c.subject, c.hash) && Unreleased()(c).value.hash == c.hash
  {
  }

  lemma {:induction false} UnreleasedIff(covered: seq<Commit>)
    requires DistinctHashes(covered)
    ensures ChangesOf(covered) == FilterMap(covered, Unreleased()) <==> forall c :: c in covered ==> (Housekeeping(c) <==> IsRelease(c))
  {
    var f, g := Told(), Unreleased();
    forall c
      ensures f(c).Some? ==> f(c).value.hash == c.hash
      ensures g(c).Some? ==> g(c).value.hash == c.hash
      ensures f(c).Some? && g(c).Some? ==> f(c) == g(c)
      ensures f(c).None? <==> Housekeeping(c)
      ensures g(c).None? <==> IsRelease(c)
    {
      ToldOrReleased(c);
    }
    SameToldIff(covered, f, g);
  }

  /**
   * So the sections tell exactly the covered commits that are no releases if and only if, of the commits
   * covered, just the releases have a subject that begins with `chore(release)`.
   */
  lemma {:induction false} TellsTheUnreleasedIff(commits: seq<Commit>, staged: string)
    requires DistinctHashes(commits)
    ensures Top(commits, staged) <= |commits|
    ensures forall i :: 0 <= i < |Bounds(commits, staged)| ==>
                          Bounds(commits, staged)[i].start <= Bounds(commits, staged)[i].end <= |commits|
    ensures var covered := commits[Top(commits, staged)..];
            ChangesOver(commits, Bounds(commits, staged)) == FilterMap(covered, Unreleased()) <==>
              forall c :: c in covered ==> ("chore(release)" <= c.subject <==> IsRelease(c))
  {
    NothingIsLost(commits, staged);
    UnreleasedIff(commits[Top(commits, staged)..]);
  }

  /** A commit that is no release and is told nowhere: `chore(release): rotate the npm token`, for one. */
  lemma {:induction false} HousekeepingIsDropped(c: Commit)
    requires "chore(release)" <= c.subject && !c.mentions
    ensures !IsRelease(c) && ChangesOf([c]) == []
  {
    assert [c][1..] == [] && FilterMap([c][1..], Told()) == [];
  }

  lemma {:induction false} TokenRotationIsHousekeeping(c: Commit)
    requires c.subject == "chore(release)" + ": rotate the npm token"
    ensures Housekeeping(c)
  {
    assert c.subject[..14] == "chore(release)";
  }

  /** A release that is told as a change all the same: its message mentions it, its subject begins otherwise, as with `feat: ship `. */
  lemma {:induction false} ShippedVersionIsTold(prefix: string, a: string, b: string, c: string, suffix: string, hash: string)
    requires Number(a) && Number(b) && Number(c) && Suffix(suffix)
    requires 'm' !in prefix && prefix != "" && prefix[0] != 'c'
    ensures var commit := Commit(hash, prefix + ("maxstack@" + Version(a, b, c, suffix)), true);
            IsRelease(commit) && !Housekeeping(commit)
  {
    var version := Version(a, b, c, suffix);
    VersionReads(a, b, c, suffix);
    VersionNamed(prefix, version);
    BeginsOtherwise(Commit(hash, prefix + ("maxstack@" + version), true));
  }

  lemma {:induction false} BeginsOtherwise(c: Commit)
    requires c.subject != "" && c.subject[0] != 'c'
    ensures !Housekeeping(c)
  {
    assert "chore(release)"[0] == 'c';
  }

  /** A section as buildChangelog writes it: without an archive the oldest only says it is the first. */
  datatype Rendered = InitialRelease | Lines(lines: seq<Line>)

  function RenderedAt(commits: seq<Commit>, b: Bound, archive: bool): Rendered
    requires b.start <= b.end <= |commits|
  {
    if b.oldest && !archive then InitialRelease else Lines(Section(ChangesOf(commits[b.start..b.end])))
  }

  method RenderBound(commits: seq<Commit>, b: Bound, archive: bool) returns (r: Rendered)
    requires b.start <= b.end <= |commits|
    ensures r == RenderedAt(commits, b, archive)
    ensures r.Lines? ==>
              multiset(Listed(r.lines)) + multiset(Filter(ChangesOf(commits[b.start..b.end]), IsInternal()))
              == multiset(ChangesOf(commits[b.start..b.end]))
  {
    if b.oldest && !archive {
      return InitialRelease;
    }
    var changes := ChangesOf(commits[b.start..b.end]);
    var lines := RenderSection(changes);
    ToldIsKnown(commits[b.start..b.end]);
    EveryChangeOnce(changes);
    return Lines(lines);
  }

  /** Only the last range is the oldest, so only without an archive, and only its commits, are left untold. */
  lemma {:induction false} OnlyTheOldestIsWithheld(commits: seq<Commit>, staged: string, i: nat)
    requires i < |Bounds(commits, staged)|
    ensures Bounds(commits, staged)[i].oldest <==> i == |Bounds(commits, staged)| - 1
  {
    OldestOnTop(commits, staged);
    OldestBelow(commits);
    LastIsOldest(TopBound(commits, staged), BoundsFrom(commits, Releases(commits, 0), |Releases(commits, 0)|), i);
  }

  /**
   * The last section says only that it is the first release, when there is no archive; every other section, and that
   * one beside an archive, lists what its own range tells.
   */
  lemma {:induction false} WithheldIff(commits: seq<Commit>, staged: string, archive: bool, i: nat)
    requires i < |Bounds(commits, staged)|
    ensures var b, last := Bounds(commits, staged)[i], i == |Bounds(commits, staged)| - 1;
            && b.start <= b.end <= |commits|
            && (last && !archive ==> RenderedAt(commits, b, archive) == InitialRelease)
            && (!last || archive ==> RenderedAt(commits, b, archive) == Lines(Section(ChangesOf(commits[b.start..b.end]))))
  {
    OnlyTheOldestIsWithheld(commits, staged, i);
    RangesTile(commits, staged);
    TilesBounded(Bounds(commits, staged), Top(commits, staged), |commits|, i);
  }

  lemma {:induction false} LastIsOldest(top: seq<Bound>, below: seq<Bound>, i: nat)
    requires |top| <= 1 && (top != [] ==> (top[0].oldest <==> below == []))
    requires forall k :: 0 <= k < |below| ==> (below[k].oldest <==> k == |below| - 1)
    requires i < |top + below|
    ensures (top + below)[i].oldest <==> i == |top + below| - 1
  {
    assert i >= |top| ==> (top + below)[i] == below[i - |top|];
  }

  lemma {:induction false} OldestOnTop(commits: seq<Commit>, staged: string)
    ensures TopBound(commits, staged) != [] ==> (TopBound(commits, staged)[0].oldest <==> Releases(commits, 0) == [])
  {
  }

  lemma {:induction false} OldestBelow(commits: seq<Commit>)
    ensures var releases := Releases(commits, 0);
            var bounds := BoundsFrom(commits, releases, |releases|);
            |bounds| == |releases| && forall k :: 0 <= k < |bounds| ==> (bounds[k].oldest <==> k == |bounds| - 1)
  {
    var releases := Releases(commits, 0);
    BoundsCount(commits, releases, |releases|);
    forall k | 0 <= k < |releases|
      ensures BoundsFrom(commits, releases, |releases|)[k].oldest <==> k == |releases| - 1
    {
      BoundsAt(commits, releases, |releases|, k);
    }
  }

  lemma {:induction false} BoundsCount(commits: seq<Commit>, releases: seq<nat>, n: nat)
    requires n <= |releases| && forall k :: 0 <= k < |releases| ==> releases[k] < |commits| && IsRelease(commits[releases[k]])
    ensures |BoundsFrom(commits, releases, n)| == n
  {
    if n > 0 {
      BoundsCount(commits, releases, n - 1);
    }
  }

  lemma {:induction false} BoundsAt(commits: seq<Commit>, releases: seq<nat>, n: nat, i: nat)
    requires i < n <= |releases| && forall k :: 0 <= k < |releases| ==> releases[k] < |commits| && IsRelease(commits[releases[k]])
    ensures |BoundsFrom(commits, releases, n)| == n && BoundsFrom(commits, releases, n)[i] == BoundAt(commits, releases, i)
  {
    BoundsCount(commits, releases, n - 1);
    if i < n - 1 {
      BoundsAt(commits, releases, n - 1, i);
    }
  }

  /** Which version each section is of: the staged one on top, while it is staged, and below it that of the release the range starts at. */
  lemma {:induction false} SectionsAreOf(commits: seq<Commit>, staged: string, i: nat)
    requires i < |Bounds(commits, staged)|
    ensures var releases, b := Releases(commits, 0), Bounds(commits, staged)[i];
            var top := releases == [] || VersionOf(commits[releases[0]].subject) != Some(staged);
            && |Bounds(commits, staged)| == |releases| + (if top then 1 else 0)
            && (top && i == 0 ==> b.version == staged && b.start == 0)
            && (top && i > 0 ==> b.start == releases[i - 1])
            && (!top ==> b.start == releases[i])
            && (!top || i > 0 ==> b.start < |commits| && VersionOf(commits[b.start].subject) == Some(b.version))
  {
    var releases := Releases(commits, 0);
    BoundsCount(commits, releases, |releases|);
    var k := i - |TopBound(commits, staged)|;
    if k >= 0 {
      BoundsAt(commits, releases, |releases|, k);
    }
  }

  /** Commits newer than a release already made of the staged version are told nowhere. */
  lemma {:induction false} NewerCommitsAreUncovered(commits: seq<Commit>, staged: string, k: nat)
    requires k < |commits| && Releases(commits, 0) != [] && k < Releases(commits, 0)[0]
    ensures (exists i :: && 0 <= i < |Bounds(commits, staged)|
                         && Bounds(commits, staged)[i].start <= k < Bounds(commits, staged)[i].end)
            <==> VersionOf(commits[Releases(commits, 0)[0]].subject) != Some(staged)
  {
    RangesTile(commits, staged);
    if Staging(commits, staged) {
      assert Bounds(commits, staged)[0].start <= k < Bounds(commits, staged)[0].end;
    } else {
      forall i | 0 <= i < |Bounds(commits, staged)|
        ensures k < Bounds(commits, staged)[i].start
      {
        TilesBounded(Bounds(commits, staged), Top(commits, staged), |commits|, i);
      }
    }
  }
}
