/**
 * Rank keys: a decimal fraction written without its leading `0.`, compared as text.
 * Models packages/ui/src/resource/rank.ts.
 */
module Rank {
  import opened Collections
  import opened Sorting
  import opened Strings
  import Lex

  datatype Ranked = Ranked(rank: Option<string>, id: string)

  datatype RankResult = Key(key: string) | NotAKey(text: string) | OutOfOrder(before: string, after: string)

  predicate IsRankKey(key: string) {
    key != "" && Digits(key) && key[|key| - 1] != '0'
  }

  /** A lower bound of a gap: a key, or the empty string standing for zero. */
  predicate IsFloor(a: string) {
    a == "" || IsRankKey(a)
  }

  function Value(c: char): (d: nat)
    requires IsDigit(c)
    ensures d < 10
  {
    c as int - '0' as int
  }

  function Digit(d: nat): (c: char)
    requires d < 10
    ensures IsDigit(c) && Value(c) == d
  {
    '0' + d as char
  }

  /** The first digit of a fraction, a missing one being zero. */
  function Head(a: string): char {
    if a == "" then '0' else a[0]
  }

  function Tail(a: string): string {
    if a == "" then "" else a[1..]
  }

  function DigitAt(a: string, k: nat): char {
    if k < |a| then a[k] else '0'
  }

  function From(a: string, n: nat): string {
    if n <= |a| then a[n..] else ""
  }

  /** `a` and `b` bound a gap: `b` absent stands for one. */
  predicate Gap(a: string, b: Option<string>) {
    && IsFloor(a)
    && (b.Some? ==> IsRankKey(b.value) && Lex.Less(a, b.value))
  }

  lemma {:induction false} GapTail(a: string, b: string)
    requires Gap(a, Some(b)) && Head(a) == b[0]
    ensures Gap(Tail(a), Some(b[1..]))
  {
    if a == "" {
      assert b[|b| - 1] != '0';
      assert |b| > 1;
    } else {
      assert Lex.Less(a, b) == Lex.Less(a[1..], b[1..]);
      assert b[1..] != "";
      assert a[1..] != "" ==> a[1..][|a| - 2] == a[|a| - 1];
    }
    assert b[1..][|b| - 2] == b[|b| - 1];
  }

  /** The key half way through a gap, one digit at a time. */
  function MidpointOf(a: string, b: Option<string>): (key: string)
    requires Gap(a, b)
    ensures IsRankKey(key)
    ensures Lex.Less(a, key)
    ensures b.Some? ==> Lex.Less(key, b.value)
    decreases |a| + if b.Some? then |b.value| + 1 else 0
  {
    if b.Some? && Head(a) == b.value[0] then
      GapTail(a, b.value);
      [b.value[0]] + MidpointOf(Tail(a), Some(b.value[1..]))
    else
      var low := Value(Head(a));
      var high := if b.Some? then Value(b.value[0]) else 10;
      if high - low > 1 then [Digit((low + high + 1) / 2)]
      else if b.Some? && |b.value| > 1 then b.value[..1]
      else [Digit(low)] + MidpointOf(Tail(a), None)
  }

  lemma {:induction false} MidpointStep(a: string, b: string)
    requires Gap(a, Some(b)) && Head(a) == b[0]
    ensures Gap(Tail(a), Some(b[1..]))
    ensures MidpointOf(a, Some(b)) == [b[0]] + MidpointOf(Tail(a), Some(b[1..]))
  {
    GapTail(a, b);
  }

  /** One digit of the common prefix the source strips: it is copied and the gap stays a gap. */
  lemma {:induction false} StripOne(a: string, b: string, n: nat)
    requires n < |b| && Gap(From(a, n), Some(b[n..])) && DigitAt(a, n) == b[n]
    ensures n + 1 < |b| && Gap(From(a, n + 1), Some(b[n + 1..]))
    ensures MidpointOf(From(a, n), Some(b[n..])) == [b[n]] + MidpointOf(From(a, n + 1), Some(b[n + 1..]))
  {
    assert Head(From(a, n)) == DigitAt(a, n);
    MidpointStep(From(a, n), b[n..]);
    assert b[n..][1..] == b[n + 1..];
    assert Tail(From(a, n)) == From(a, n + 1);
  }

  /** After `n` digits of common prefix, what remains is the midpoint of the remaining gap. */
  ghost predicate Stripped(a: string, b: string, n: nat) {
    && Gap(a, Some(b)) && n < |b|
    && Gap(From(a, n), Some(b[n..]))
    && MidpointOf(a, Some(b)) == b[..n] + MidpointOf(From(a, n), Some(b[n..]))
  }

  lemma {:induction false} Regroup(b: string, n: nat, rest: string)
    requires n < |b|
    ensures b[..n] + ([b[n]] + rest) == b[..n + 1] + rest
  {}

  lemma {:induction false} StrippedStep(a: string, b: string, n: nat)
    requires Stripped(a, b, n) && DigitAt(a, n) == b[n]
    ensures Stripped(a, b, n + 1)
  {
    StripOne(a, b, n);
    Regroup(b, n, MidpointOf(From(a, n + 1), Some(b[n + 1..])));
  }

  /** The length of the common prefix, `a` padded with zeros. */
  method CommonPrefix(a: string, b: string) returns (n: nat)
    requires Gap(a, Some(b))
    ensures Stripped(a, b, n) && DigitAt(a, n) != b[n]
  {
    n := 0;
    assert Stripped(a, b, 0) by {
      assert From(a, 0) == a && b[0..] == b;
    }
    while n < |b| && DigitAt(a, n) == b[n]
      invariant Stripped(a, b, n)
    {
      StrippedStep(a, b, n);
      n := n + 1;
    }
  }

  /** The leading digits of a gap, and that it goes on to the right of them without an upper bound. */
  lemma {:induction false} GapHeads(a: string, b: Option<string>)
    requires Gap(a, b)
    ensures IsDigit(Head(a)) && Gap(Tail(a), None)
    ensures b.Some? ==> b.value != "" && IsDigit(b.value[0])
  {
    if a != "" && a[1..] != "" {
      assert a[1..][|a| - 2] == a[|a| - 1];
    }
  }

  /** The midpoint of a gap whose bounds differ in their first digit. */
  lemma {:induction false} MidpointApart(a: string, b: Option<string>)
    requires Gap(a, b) && (b.Some? ==> b.value != "" && Head(a) != b.value[0])
    requires IsDigit(Head(a)) && Gap(Tail(a), None) && (b.Some? ==> IsDigit(b.value[0]))
    ensures var low := Value(Head(a));
            var high := if b.Some? then Value(b.value[0]) else 10;
            MidpointOf(a, b) ==
            if high - low > 1 then [Digit((low + high + 1) / 2)]
            else if b.Some? && |b.value| > 1 then b.value[..1]
            else [Digit(low)] + MidpointOf(Tail(a), None)
  {}

  method Midpoint(a: string, b: Option<string>) returns (key: string)
    requires Gap(a, b)
    ensures key == MidpointOf(a, b)
    decreases |a| + if b.Some? then |b.value| + 1 else 0
  {
    if b.Some? {
      var n := CommonPrefix(a, b.value);
      if n > 0 {
        var rest := Midpoint(From(a, n), Some(b.value[n..]));
        return b.value[..n] + rest;
      }
    }
    GapHeads(a, b);
    MidpointApart(a, b);
    var low := if a == "" then 0 else Value(a[0]);
    var high := if b.Some? then Value(b.value[0]) else 10;
    if high - low > 1 {
      return [Digit((low + high + 1) / 2)];
    }
    if b.Some? && |b.value| > 1 {
      return b.value[..1];
    }
    var rest := Midpoint(Tail(a), None);
    key := [Digit(low)] + rest;
  }

  /** A key strictly between its bounds, or the refusal the source throws. */
  function RankBetween(before: Option<string>, after: Option<string>): (r: RankResult)
    ensures r.Key? <==>
      && (before.Some? && before.value != "" ==> IsRankKey(before.value))
      && (after.Some? ==> IsRankKey(after.value))
      && (before.Some? && after.Some? ==> Lex.Less(before.value, after.value))
    ensures r.Key? ==>
      && IsRankKey(r.key)
      && (before.Some? ==> Lex.Less(before.value, r.key))
      && (after.Some? ==> Lex.Less(r.key, after.value))
  {
    var a := if before.Some? then before.value else "";
    if a != "" && !IsRankKey(a) then NotAKey(a)
    else if after.Some? && !IsRankKey(after.value) then NotAKey(after.value)
    else if after.Some? && !Lex.Less(a, after.value) then OutOfOrder(a, after.value)
    else Key(MidpointOf(a, after))
  }

  /** A key is digits of which the last is no zero. */
  lemma {:induction false} KeyIff(key: string)
    ensures IsRankKey(key) <==> key != "" && (forall i :: 0 <= i < |key| ==> '0' <= key[i] <= '9') && '1' <= key[|key| - 1] <= '9'
  {}

  /** Where the first digits leave room, the key is one digit, half way between them and rounded up. */
  lemma {:induction false} HalfWay(a: string, b: Option<string>)
    requires Gap(a, b)
    ensures var low := if a == "" then 0 else a[0] as int - '0' as int;
            var high := if b.Some? && b.value != "" then b.value[0] as int - '0' as int else 10;
            high - low > 1 ==>
              var key := MidpointOf(a, b);
              |key| == 1 && low + high <= 2 * (key[0] as int - '0' as int) <= low + high + 1
  {
    GapHeads(a, b);
    if b.None? || Head(a) != b.value[0] {
      MidpointApart(a, b);
    }
  }

  /** What a gap is refused for: a bound that is no key, the lower one first, or bounds out of order. */
  lemma {:induction false} RefusedFor(before: Option<string>, after: Option<string>)
    ensures var a := if before.Some? then before.value else "";
            && (a != "" && !IsRankKey(a) ==> RankBetween(before, after) == NotAKey(a))
            && ((a == "" || IsRankKey(a)) && after.Some? && !IsRankKey(after.value) ==> RankBetween(before, after) == NotAKey(after.value))
            && ((a == "" || IsRankKey(a)) && after.Some? && IsRankKey(after.value) && !Lex.Less(a, after.value) ==>
                  RankBetween(before, after) == OutOfOrder(a, after.value))
  {}

  // ---------------------------------------------------------------------------
  // The order
  // ---------------------------------------------------------------------------

  function CompareRanked(a: Ranked, b: Ranked): int {
    if a.rank != b.rank then
      if a.rank.None? then 1
      else if b.rank.None? then -1
      else if Lex.Less(a.rank.value, b.rank.value) then -1 else 1
    else if Lex.Less(a.id, b.id) then -1
    else if Lex.Less(b.id, a.id) then 1
    else 0
  }

  predicate Before(a: Ranked, b: Ranked) {
    CompareRanked(a, b) < 0
  }

  /** `CompareRanked` is a total order: exactly one of before, equal, after, and before is transitive. */
  lemma {:induction false} CompareRankedTotal(a: Ranked, b: Ranked)
    ensures CompareRanked(a, b) == -CompareRanked(b, a)
    ensures CompareRanked(a, b) == 0 <==> a == b
  {
    Lex.Connected(a.id, b.id);
    if Lex.Less(a.id, b.id) { Lex.Asymmetric(a.id, b.id); }
    if Lex.Less(b.id, a.id) { Lex.Asymmetric(b.id, a.id); }
    if a.rank.Some? && b.rank.Some? {
      Lex.Connected(a.rank.value, b.rank.value);
      if Lex.Less(a.rank.value, b.rank.value) { Lex.Asymmetric(a.rank.value, b.rank.value); }
      if Lex.Less(b.rank.value, a.rank.value) { Lex.Asymmetric(b.rank.value, a.rank.value); }
    }
  }

  /** What comes first: the smaller rank, any rank before none, and under one rank the smaller id. */
  lemma {:induction false} CompareRankedIs(a: Ranked, b: Ranked)
    ensures a.rank.Some? && b.rank.Some? && Lex.Less(a.rank.value, b.rank.value) ==> CompareRanked(a, b) == -1
    ensures a.rank.Some? && b.rank.None? ==> CompareRanked(a, b) == -1
    ensures a.rank == b.rank && Lex.Less(a.id, b.id) ==> CompareRanked(a, b) == -1
  {
    if a.rank.Some? && b.rank == a.rank {
      Lex.Irreflexive(a.rank.value);
    }
  }

  lemma {:induction false} BeforeTransitive(a: Ranked, b: Ranked, c: Ranked)
    requires Before(a, b) && Before(b, c)
    ensures Before(a, c)
  {
    if a.rank == b.rank == c.rank {
      Lex.Transitive(a.id, b.id, c.id);
    } else if a.rank.Some? && b.rank.Some? && c.rank.Some? && a.rank != b.rank && b.rank != c.rank {
      Lex.Transitive(a.rank.value, b.rank.value, c.rank.value);
      Lex.Asymmetric(a.rank.value, c.rank.value);
    }
  }

  // ---------------------------------------------------------------------------
  // A drop
  // ---------------------------------------------------------------------------

  function Clamp(index: int, n: nat): nat {
    if index < 0 then 0 else if index > n then n else index
  }

  lemma {:induction false} ClampIs(index: int, n: nat)
    ensures 0 <= index <= n ==> Clamp(index, n) == index
    ensures index < 0 ==> Clamp(index, n) == 0
    ensures index > n ==> Clamp(index, n) == n
  {}

  predicate Keyed(r: Ranked) {
    r.rank.Some? && IsRankKey(r.rank.value)
  }

  /** The nearest key above position `at`, rows without one passed over. */
  function KeyAbove(siblings: seq<Ranked>, at: nat): (key: Option<string>)
    requires at <= |siblings|
    ensures key.Some? ==> IsRankKey(key.value)
  {
    if at == 0 then None
    else if Keyed(siblings[at - 1]) then siblings[at - 1].rank
    else KeyAbove(siblings, at - 1)
  }

  /** The nearest key from position `at` on that is strictly greater than `before`. */
  function KeyBelow(siblings: seq<Ranked>, at: nat, before: Option<string>): (key: Option<string>)
    requires at <= |siblings|
    ensures key.Some? ==> IsRankKey(key.value) && (before.Some? ==> Lex.Less(before.value, key.value))
    decreases |siblings| - at
  {
    if at == |siblings| then None
    else if Keyed(siblings[at]) && (before.None? || Lex.Less(before.value, siblings[at].rank.value))
    then siblings[at].rank
    else KeyBelow(siblings, at + 1, before)
  }

  /** The key a card dropped at `index` receives: never a refusal, whatever the siblings carry. */
  function RankForDropOf(siblings: seq<Ranked>, index: int): (key: string)
    ensures IsRankKey(key)
    ensures var at := Clamp(index, |siblings|);
            var before := KeyAbove(siblings, at);
            && (before.Some? ==> Lex.Less(before.value, key))
            && (KeyBelow(siblings, at, before).Some? ==> Lex.Less(key, KeyBelow(siblings, at, before).value))
  {
    var at := Clamp(index, |siblings|);
    var before := KeyAbove(siblings, at);
    RankBetween(before, KeyBelow(siblings, at, before)).key
  }

  method RankForDrop(siblings: seq<Ranked>, index: int) returns (r: RankResult)
    ensures r == Key(RankForDropOf(siblings, index))
  {
    var at := Clamp(index, |siblings|);
    var before: Option<string> := None;
    var i := at - 1;
    while i >= 0
      invariant -1 <= i < at
      invariant before == None
      invariant KeyAbove(siblings, at) == KeyAbove(siblings, i + 1)
    {
      if siblings[i].rank.Some? && IsRankKey(siblings[i].rank.value) {
        before := siblings[i].rank;
        break;
      }
      i := i - 1;
    }
    var after: Option<string> := None;
    i := at;
    while i < |siblings|
      invariant at <= i <= |siblings|
      invariant after == None
      invariant KeyBelow(siblings, at, before) == KeyBelow(siblings, i, before)
    {
      var key := siblings[i].rank;
      if key.Some? && IsRankKey(key.value) && (before.None? || Lex.Less(before.value, key.value)) {
        after := key;
        break;
      }
      i := i + 1;
    }
    r := RankBetween(before, after);
  }

  // ---------------------------------------------------------------------------
  // Display order
  // ---------------------------------------------------------------------------

  ghost predicate Sorted(s: seq<Ranked>) {
    forall i, j :: 0 <= i < j < |s| ==> CompareRanked(s[i], s[j]) <= 0
  }

  /** `sort(compareRanked)`. */
  function Sort(s: seq<Ranked>): (r: seq<Ranked>)
    ensures multiset(r) == multiset(s)
  {
    SortBy(s, Before)
  }

  lemma {:induction false} BeforeIsStrict()
    ensures StrictWeak(Before)
  {
    forall a, b
      ensures Before(a, b) ==> !Before(b, a)
    {
      CompareRankedTotal(a, b);
    }
    forall a, b, c | !Before(b, a) && !Before(c, b)
      ensures !Before(c, a)
    {
      CompareRankedTotal(a, b);
      CompareRankedTotal(b, c);
      CompareRankedTotal(c, a);
      if a != b && b != c { BeforeTransitive(a, b, c); }
    }
  }

  lemma {:induction false} SortSorted(s: seq<Ranked>)
    ensures Sorted(Sort(s))
  {
    BeforeIsStrict();
    SortByOrdered(s, Before);
    forall i, j | 0 <= i < j < |Sort(s)|
      ensures CompareRanked(Sort(s)[i], Sort(s)[j]) <= 0
    {
      assert !Before(Sort(s)[j], Sort(s)[i]);
      CompareRankedTotal(Sort(s)[i], Sort(s)[j]);
    }
  }

  lemma {:induction false} LeastFirst(s: seq<Ranked>, x: Ranked)
    requires Sorted(s) && x in multiset(s)
    ensures s != [] && CompareRanked(s[0], x) <= 0
  {
    var i :| 0 <= i < |s| && s[i] == x;
    CompareRankedTotal(x, x);
  }

  lemma {:induction false} HeadOff(s: seq<Ranked>)
    requires s != []
    ensures s == [s[0]] + s[1..] && multiset(s[1..]) == multiset(s) - multiset{s[0]}
  {
    assert s == [s[0]] + s[1..];
  }

  /** The display order is a function of the cards alone, never of the order the store returned them in. */
  lemma {:induction false} SortedUnique(s: seq<Ranked>, t: seq<Ranked>)
    requires Sorted(s) && Sorted(t) && multiset(s) == multiset(t)
    ensures s == t
  {
    if s == [] {
      assert |multiset(t)| == 0;
    } else {
      assert s[0] in multiset(s);
      LeastFirst(t, s[0]);
      assert t[0] in multiset(t);
      LeastFirst(s, t[0]);
      CompareRankedTotal(s[0], t[0]);
      HeadOff(s);
      HeadOff(t);
      SortedUnique(s[1..], t[1..]);
    }
  }

  // ---------------------------------------------------------------------------
  // Where a dropped card lands
  // ---------------------------------------------------------------------------

  /** Every key is one this module or the column's default produced, or is missing. */
  ghost predicate WellRanked(s: seq<Ranked>) {
    forall i :: 0 <= i < |s| ==> s[i].rank.None? || IsRankKey(s[i].rank.value)
  }

  function KeyedCount(s: seq<Ranked>): (n: nat)
    ensures n <= |s|
  {
    if s == [] || s[0].rank.None? then 0 else 1 + KeyedCount(s[1..])
  }

  /** How many cards from `at` on share the key of the card just above `at`. */
  function TieRun(s: seq<Ranked>, at: nat): (n: nat)
    requires at <= |s|
    ensures at + n <= |s|
    decreases |s| - at
  {
    if at == 0 || at == |s| || s[at].rank != s[at - 1].rank then 0 else 1 + TieRun(s, at + 1)
  }

  /** The position a card dropped at `index` takes among `siblings`. */
  function Landing(siblings: seq<Ranked>, index: int): (p: nat)
    ensures p <= |siblings|
  {
    var at := if Clamp(index, |siblings|) <= KeyedCount(siblings) then Clamp(index, |siblings|)
              else KeyedCount(siblings);
    at + TieRun(siblings, at)
  }

  lemma {:induction false} KeyedPrefix(s: seq<Ranked>)
    requires Sorted(s)
    ensures forall i :: 0 <= i < |s| ==> (s[i].rank.Some? <==> i < KeyedCount(s))
  {
    if s != [] {
      if s[0].rank.None? {
        forall i | 0 <= i < |s|
          ensures s[i].rank.None?
        {
          assert i > 0 ==> CompareRanked(s[0], s[i]) <= 0;
        }
      } else {
        KeyedPrefix(s[1..]);
        assert forall i :: 0 < i < |s| ==> s[i] == s[1..][i - 1];
      }
    }
  }

  lemma {:induction false} TieRunSpec(s: seq<Ranked>, at: nat)
    requires 0 < at <= |s|
    ensures forall i :: at <= i < at + TieRun(s, at) ==> s[i].rank == s[at - 1].rank
    ensures at + TieRun(s, at) < |s| ==> s[at + TieRun(s, at)].rank != s[at - 1].rank
    decreases |s| - at
  {
    if at < |s| && s[at].rank == s[at - 1].rank {
      TieRunSpec(s, at + 1);
    }
  }

  lemma {:induction false} KeyAboveSkips(s: seq<Ranked>, low: nat, at: nat)
    requires low <= at <= |s|
    requires forall i :: low <= i < at ==> !Keyed(s[i])
    ensures KeyAbove(s, at) == KeyAbove(s, low)
  {
    if low < at {
      KeyAboveSkips(s, low, at - 1);
    }
  }

  lemma {:induction false} KeyBelowSkips(s: seq<Ranked>, at: nat, high: nat, before: Option<string>)
    requires at <= high <= |s|
    requires forall i :: at <= i < high ==> !Keyed(s[i]) || (before.Some? && s[i].rank == before)
    ensures KeyBelow(s, at, before) == KeyBelow(s, high, before)
    decreases high - at
  {
    if at < high {
      if before.Some? { Lex.Irreflexive(before.value); }
      KeyBelowSkips(s, at + 1, high, before);
    }
  }

  /** The lower bound a drop computes is the key of the card just above the landing position. */
  lemma {:induction false} DropAbove(s: seq<Ranked>, index: int)
    requires Sorted(s) && WellRanked(s)
    ensures var p := Landing(s, index);
            && KeyAbove(s, Clamp(index, |s|)) == (if p == 0 then None else s[p - 1].rank)
            && p <= KeyedCount(s)
  {
    KeyedPrefix(s);
    var m := KeyedCount(s);
    var at0 := Clamp(index, |s|);
    var at := if at0 <= m then at0 else m;
    KeyAboveSkips(s, at, at0);
    if at > 0 {
      assert Keyed(s[at - 1]);
      TieRunSpec(s, at);
      assert s[Landing(s, index) - 1].rank == s[at - 1].rank;
    }
  }

  /** No run of equal keys reaches past the last keyed card. */
  lemma {:induction false} TieRunNone(s: seq<Ranked>, m: nat)
    requires m <= |s| && (0 < m < |s| ==> s[m].rank != s[m - 1].rank)
    ensures TieRun(s, m) == 0
  {}

  /** Past the keyed cards a drop lands below the last of them, with no bound. */
  lemma {:induction false} DropPast(s: seq<Ranked>, index: int)
    requires Sorted(s) && WellRanked(s) && Clamp(index, |s|) > KeyedCount(s)
    ensures var p := Landing(s, index);
            && p == KeyedCount(s)
            && KeyBelow(s, Clamp(index, |s|), if p == 0 then None else s[p - 1].rank) == None
  {
    KeyedPrefix(s);
    TieRunNone(s, KeyedCount(s));
    var p := KeyedCount(s);
    KeyBelowSkips(s, Clamp(index, |s|), |s|, if p == 0 then None else s[p - 1].rank);
  }

  /** The search passes a run of equal keys. */
  lemma {:induction false} RunSkipped(s: seq<Ranked>, at: nat)
    requires 0 < at <= |s| && s[at - 1].rank.Some?
    ensures var p := at + TieRun(s, at);
            && s[p - 1].rank == s[at - 1].rank
            && KeyBelow(s, at, s[at - 1].rank) == KeyBelow(s, p, s[at - 1].rank)
            && (p < |s| ==> s[p].rank != s[p - 1].rank)
  {
    TieRunSpec(s, at);
    KeyBelowSkips(s, at, at + TieRun(s, at), s[at - 1].rank);
  }

  /** The search from the landing position stops at once. */
  lemma {:induction false} NextKey(s: seq<Ranked>, p: nat)
    requires Sorted(s) && WellRanked(s) && p <= KeyedCount(s)
    requires 0 < p < |s| ==> s[p].rank != s[p - 1].rank
    ensures KeyBelow(s, p, if p == 0 then None else s[p - 1].rank) == (if p < KeyedCount(s) then s[p].rank else None)
  {
    KeyedPrefix(s);
    var before := if p == 0 then None else s[p - 1].rank;
    if p < KeyedCount(s) {
      if p > 0 {
        assert CompareRanked(s[p - 1], s[p]) <= 0;
        assert Lex.Less(before.value, s[p].rank.value);
      }
    } else {
      KeyBelowSkips(s, p, |s|, before);
    }
  }

  /** Among the keyed cards a drop lands below the run of equal keys it fell into. */
  lemma {:induction false} BelowRun(s: seq<Ranked>, at: nat, p: nat)
    requires Sorted(s) && WellRanked(s) && at <= |s| && p == at + TieRun(s, at) && p <= KeyedCount(s)
    ensures KeyBelow(s, at, if p == 0 then None else s[p - 1].rank) == (if p < KeyedCount(s) then s[p].rank else None)
  {
    if at == 0 {
      assert p == 0;
      NextKey(s, 0);
    } else {
      BelowRunOf(s, at, p);
    }
  }

  lemma {:induction false} BelowRunOf(s: seq<Ranked>, at: nat, p: nat)
    requires Sorted(s) && WellRanked(s) && 0 < at <= |s| && p == at + TieRun(s, at) && p <= KeyedCount(s)
    ensures KeyBelow(s, at, s[p - 1].rank) == (if p < KeyedCount(s) then s[p].rank else None)
  {
    assert s[at - 1].rank.Some? by { KeyedPrefix(s); }
    RunSkipped(s, at);
    NextKey(s, p);
  }

  /** The upper bound a drop computes is the key of the card just below the landing position. */
  lemma {:induction false} DropBelow(s: seq<Ranked>, index: int)
    requires Sorted(s) && WellRanked(s)
    ensures var p := Landing(s, index);
            KeyBelow(s, Clamp(index, |s|), if p == 0 then None else s[p - 1].rank)
            == (if p < KeyedCount(s) then s[p].rank else None)
  {
    if Clamp(index, |s|) > KeyedCount(s) {
      DropPast(s, index);
    } else {
      DropAbove(s, index);
      BelowRun(s, Clamp(index, |s|), Landing(s, index));
    }
  }

  /** The dropped card sorts after every sibling above its landing position. */
  lemma {:induction false} LandsBelow(s: seq<Ranked>, index: int, id: string, i: nat)
    requires Sorted(s) && WellRanked(s) && i < Landing(s, index)
    ensures Before(s[i], Ranked(Some(RankForDropOf(s, index)), id))
  {
    var key := RankForDropOf(s, index);
    var p := Landing(s, index);
    DropAbove(s, index);
    assert s[i].rank.Some? && s[p - 1].rank.Some? by { KeyedPrefix(s); }
    var above := s[p - 1].rank.value;
    assert Lex.Less(above, key);
    if s[i].rank.value != above {
      assert CompareRanked(s[i], s[p - 1]) <= 0;
      Lex.Transitive(s[i].rank.value, above, key);
    }
    Lex.Asymmetric(s[i].rank.value, key);
  }

  /** The dropped card sorts before every sibling from its landing position on. */
  lemma {:induction false} LandsAbove(s: seq<Ranked>, index: int, id: string, i: nat)
    requires Sorted(s) && WellRanked(s) && Landing(s, index) <= i < |s|
    ensures Before(Ranked(Some(RankForDropOf(s, index)), id), s[i])
  {
    assert s[i].rank.Some? <==> i < KeyedCount(s) by { KeyedPrefix(s); }
    if i < KeyedCount(s) {
      BelowLanding(s, index);
      var key, below := RankForDropOf(s, index), s[Landing(s, index)].rank.value;
      if s[i].rank.value != below {
        assert CompareRanked(s[Landing(s, index)], s[i]) <= 0;
        Lex.Transitive(key, below, s[i].rank.value);
      }
      Lex.Asymmetric(key, s[i].rank.value);
    }
  }

  /** The dropped card's key is below that of the card at its landing position. */
  lemma {:induction false} BelowLanding(s: seq<Ranked>, index: int)
    requires Sorted(s) && WellRanked(s) && Landing(s, index) < KeyedCount(s)
    ensures s[Landing(s, index)].rank.Some? && Lex.Less(RankForDropOf(s, index), s[Landing(s, index)].rank.value)
  {
    KeyedPrefix(s);
    DropAbove(s, index);
    DropBelow(s, index);
  }

  /** Sorting a column's cards with one more among them inserts it where it splits the others. */
  lemma {:induction false} ResortsAround(s: seq<Ranked>, card: Ranked, p: nat, cards: seq<Ranked>)
    requires Sorted(s) && p <= |s| && multiset(cards) == multiset(s) + multiset{card}
    requires forall i :: 0 <= i < p ==> Before(s[i], card)
    requires forall i :: p <= i < |s| ==> Before(card, s[i])
    ensures Sort(cards) == s[..p] + [card] + s[p..]
  {
    var placed := s[..p] + [card] + s[p..];
    assert Sorted(placed);
    assert s == s[..p] + s[p..];
    assert multiset(placed) == multiset(cards);
    SortSorted(cards);
    SortedUnique(Sort(cards), placed);
  }

  /**
   * Re-sorting the column after a drop: the siblings keep their order and the card stands
   * at its landing position.
   */
  lemma {:induction false} DropResorts(s: seq<Ranked>, index: int, id: string)
    requires Sorted(s) && WellRanked(s)
    ensures var card := Ranked(Some(RankForDropOf(s, index)), id);
            var p := Landing(s, index);
            forall cards :: multiset(cards) == multiset(s) + multiset{card}
                       ==> Sort(cards) == s[..p] + [card] + s[p..]
  {
    var card := Ranked(Some(RankForDropOf(s, index)), id);
    forall i | 0 <= i < Landing(s, index)
      ensures Before(s[i], card)
    {
      LandsBelow(s, index, id, i);
    }
    forall i | Landing(s, index) <= i < |s|
      ensures Before(card, s[i])
    {
      LandsAbove(s, index, id, i);
    }
    forall cards | multiset(cards) == multiset(s) + multiset{card}
      ensures Sort(cards) == s[..Landing(s, index)] + [card] + s[Landing(s, index)..]
    {
      ResortsAround(s, card, Landing(s, index), cards);
    }
  }

  /**
   * The card lands exactly where it was dropped iff the index is within the keyed cards and the
   * gap there is not inside a run of equal keys.
   */
  lemma {:induction false} LandsWhereAsked(s: seq<Ranked>, index: int)
    requires Sorted(s) && WellRanked(s)
    ensures Landing(s, index) == index <==>
            && 0 <= index <= KeyedCount(s)
            && (0 < index < |s| ==> s[index].rank != s[index - 1].rank)
  {
    DropAbove(s, index);
    DropBelow(s, index);
  }

  /** Two cards with one key: a drop between them lands below both. */
  lemma {:induction false} TiedGapLandsBelow()
    ensures exists s: seq<Ranked>, index: int ::
              Sorted(s) && WellRanked(s) && 0 <= index <= |s| && Landing(s, index) != index
  {
    var s := [Ranked(Some("5"), "a"), Ranked(Some("5"), "b")];
    assert Lex.Less("a", "b");
    assert Sorted(s);
    assert TieRun(s, 1) == 1 + TieRun(s, 2);
    assert KeyedCount(s) == 2 by {
      assert s[1..] == [s[1]] && s[1..][1..] == [];
    }
    assert Landing(s, 1) == 2;
  }

  // ---------------------------------------------------------------------------
  // Where a card stands, whatever the stored ranks are
  // ---------------------------------------------------------------------------

  /** How many of the cards come before one more. */
  function Position(s: seq<Ranked>, card: Ranked): nat {
    |Filter(s, (x: Ranked) => Before(x, card))|
  }

  lemma {:induction false} PositionOf(s: seq<Ranked>, card: Ranked, p: nat)
    requires p <= |s|
    requires forall k :: 0 <= k < p ==> Before(s[k], card)
    requires forall k :: p <= k < |s| ==> !Before(s[k], card)
    ensures Position(s, card) == p
  {
    if s != [] {
      PositionOf(s[1..], card, if p == 0 then 0 else p - 1);
    }
  }

  lemma {:induction false} PositionStep(s: seq<Ranked>, card: Ranked)
    requires s != []
    ensures Position(s, card) == (if Before(s[0], card) then 1 else 0) + Position(s[1..], card)
  {
    var f := (x: Ranked) => Before(x, card);
    assert Filter(s, f) == if f(s[0]) then [s[0]] + Filter(s[1..], f) else Filter(s[1..], f);
  }

  /** What a card comes before, the cards below that come after it too. */
  lemma {:induction false} BelowToo(s: seq<Ranked>, card: Ranked, k: nat)
    requires Sorted(s) && k < |s| && Before(card, s[0])
    ensures Before(card, s[k]) && !Before(s[k], card)
  {
    CompareRankedTotal(s[0], s[k]);
    if s[0] != s[k] { BeforeTransitive(card, s[0], s[k]); }
    CompareRankedTotal(card, s[k]);
  }

  /** A card of another id splits sorted cards where counting says. */
  lemma {:induction false} CountIsPosition(s: seq<Ranked>, card: Ranked)
    requires Sorted(s) && forall x :: x in s ==> x.id != card.id
    ensures var p := Position(s, card);
            && p <= |s|
            && (forall k :: 0 <= k < p ==> Before(s[k], card))
            && (forall k :: p <= k < |s| ==> Before(card, s[k]))
  {
    if s != [] {
      CompareRankedTotal(s[0], card);
      if Before(s[0], card) {
        CountIsPosition(s[1..], card);
        PositionStep(s, card);
      } else {
        forall k | 0 <= k < |s|
          ensures Before(card, s[k]) && !Before(s[k], card)
        {
          BelowToo(s, card, k);
        }
        PositionOf(s, card, 0);
      }
    }
  }

  /** Whatever ranks the siblings carry, a dropped card stands where counting says and they keep their order. */
  lemma {:induction false} DropStands(s: seq<Ranked>, card: Ranked, cards: seq<Ranked>)
    requires Sorted(s) && (forall x :: x in s ==> x.id != card.id)
    requires multiset(cards) == multiset(s) + multiset{card}
    ensures var p := Position(s, card);
            p <= |s| && Sort(cards) == s[..p] + [card] + s[p..]
  {
    CountIsPosition(s, card);
    ResortsAround(s, card, Position(s, card), cards);
  }

  /** The key found above a drop is the last one there. */
  lemma {:induction false} KeyAboveIsGreatest(s: seq<Ranked>, at: nat, i: nat)
    requires Sorted(s) && i < at <= |s| && Keyed(s[i])
    ensures KeyAbove(s, at).Some? && !Lex.Less(KeyAbove(s, at).value, s[i].rank.value)
  {
    if Keyed(s[at - 1]) {
      Lex.Irreflexive(s[i].rank.value);
      if i < at - 1 {
        assert CompareRanked(s[i], s[at - 1]) <= 0;
        if s[i].rank != s[at - 1].rank { Lex.Asymmetric(s[i].rank.value, s[at - 1].rank.value); }
      }
    } else {
      KeyAboveIsGreatest(s, at - 1, i);
    }
  }

  /** The key found below a drop is the least one there above the lower bound. */
  lemma {:induction false} KeyBelowIsLeast(s: seq<Ranked>, at: nat, before: Option<string>, i: nat)
    requires Sorted(s) && at <= i < |s| && Keyed(s[i])
    requires before.None? || Lex.Less(before.value, s[i].rank.value)
    ensures KeyBelow(s, at, before).Some? && !Lex.Less(s[i].rank.value, KeyBelow(s, at, before).value)
    decreases i - at
  {
    if Keyed(s[at]) && (before.None? || Lex.Less(before.value, s[at].rank.value)) {
      Lex.Irreflexive(s[i].rank.value);
      if at < i {
        assert CompareRanked(s[at], s[i]) <= 0;
        if s[i].rank != s[at].rank { Lex.Asymmetric(s[at].rank.value, s[i].rank.value); }
      }
    } else {
      KeyBelowIsLeast(s, at + 1, before, i);
    }
  }

  lemma {:induction false} LessTrans(a: string, b: string, c: string)
    requires !Lex.Less(b, a) && Lex.Less(b, c)
    ensures Lex.Less(a, c) && !Lex.Less(c, a)
  {
    Lex.Connected(a, b);
    if Lex.Less(a, b) { Lex.Transitive(a, b, c); }
    Lex.Asymmetric(a, c);
  }

  lemma {:induction false} TransLess(a: string, b: string, c: string)
    requires Lex.Less(a, b) && !Lex.Less(c, b)
    ensures Lex.Less(a, c) && !Lex.Less(c, a)
  {
    Lex.Connected(b, c);
    if Lex.Less(b, c) { Lex.Transitive(a, b, c); }
    Lex.Asymmetric(a, c);
  }

  /**
   * Whatever ranks the siblings carry, a dropped card sorts below every card above the drop that has a
   * key, and above every card below it whose key is greater than those: only cards without a valid key,
   * or with the very key above the drop, can end up on the wrong side.
   */
  lemma {:induction false} DropBetweenKeys(s: seq<Ranked>, index: int, id: string, i: nat)
    requires Sorted(s) && i < |s| && Keyed(s[i])
    ensures var at := Clamp(index, |s|);
            var card := Ranked(Some(RankForDropOf(s, index)), id);
            && (i < at ==> Before(s[i], card))
            && (i >= at && (KeyAbove(s, at).None? || Lex.Less(KeyAbove(s, at).value, s[i].rank.value)) ==> Before(card, s[i]))
  {
    var at := Clamp(index, |s|);
    var before := KeyAbove(s, at);
    var key := RankForDropOf(s, index);
    if i < at {
      KeyAboveIsGreatest(s, at, i);
      LessTrans(s[i].rank.value, before.value, key);
    } else if before.None? || Lex.Less(before.value, s[i].rank.value) {
      KeyBelowIsLeast(s, at, before, i);
      TransLess(key, KeyBelow(s, at, before).value, s[i].rank.value);
    }
  }

  /** Over siblings whose ranks are keys or missing, counting gives the landing position. */
  lemma {:induction false} LandingIsPosition(s: seq<Ranked>, index: int, id: string)
    requires Sorted(s) && WellRanked(s)
    ensures Position(s, Ranked(Some(RankForDropOf(s, index)), id)) == Landing(s, index)
  {
    var card := Ranked(Some(RankForDropOf(s, index)), id);
    forall k | 0 <= k < Landing(s, index)
      ensures Before(s[k], card)
    {
      LandsBelow(s, index, id, k);
    }
    forall k | Landing(s, index) <= k < |s|
      ensures !Before(s[k], card)
    {
      LandsAbove(s, index, id, k);
      CompareRankedTotal(card, s[k]);
    }
    PositionOf(s, card, Landing(s, index));
  }

  /** A stored rank that is text and no key: the card dropped below it can land above it. */
  lemma {:induction false} MalformedRankIsCrossed(id: string)
    requires id != "a"
    ensures var s := [Ranked(Some("abc"), "a")];
            Sorted(s) && Position(s, Ranked(Some(RankForDropOf(s, 1)), id)) == 0
  {
    var s := [Ranked(Some("abc"), "a")];
    assert KeyAbove(s, 1) == KeyAbove(s, 0) == None;
    var card := Ranked(Some(RankForDropOf(s, 1)), id);
    assert card.rank.value[0] < 'a';
    PositionOf(s, card, 0);
  }
}
