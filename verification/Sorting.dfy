/** Sorting by any strict order, as `Array.prototype.sort` does with a comparator. */
module Sorting {
  function InsertBy<T>(x: T, s: seq<T>, less: (T, T) -> bool): (r: seq<T>)
    ensures multiset(r) == multiset(s) + multiset{x}
  {
    if s == [] || !less(s[0], x) then [x] + s
    else
      assert s == [s[0]] + s[1..];
      [s[0]] + InsertBy(x, s[1..], less)
  }

  function SortBy<T>(s: seq<T>, less: (T, T) -> bool): (r: seq<T>)
    ensures multiset(r) == multiset(s) && |r| == |s|
  {
    if s == [] then []
    else
      assert s == [s[0]] + s[1..];
      var r := InsertBy(s[0], SortBy(s[1..], less), less);
      assert |r| == |multiset(r)| == |multiset(s)| == |s|;
      r
  }

  ghost predicate SortedBy<T>(s: seq<T>, less: (T, T) -> bool) {
    forall i, j :: 0 <= i < j < |s| ==> less(s[i], s[j])
  }

  ghost predicate Transitive<T(!new)>(less: (T, T) -> bool) {
    forall a, b, c :: less(a, b) && less(b, c) ==> less(a, c)
  }

  /** Any two elements in different places are told apart. */
  ghost predicate Comparable<T>(s: seq<T>, less: (T, T) -> bool) {
    forall i, j :: 0 <= i < j < |s| ==> less(s[i], s[j]) || less(s[j], s[i])
  }

  lemma {:induction false} InsertBySorted<T(!new)>(x: T, s: seq<T>, less: (T, T) -> bool)
    requires Transitive(less) && SortedBy(s, less)
    requires forall i :: 0 <= i < |s| ==> less(x, s[i]) || less(s[i], x)
    ensures SortedBy(InsertBy(x, s, less), less)
  {
    if s != [] && less(s[0], x) {
      InsertBySorted(x, s[1..], less);
      var rest := InsertBy(x, s[1..], less);
      forall j | 0 <= j < |rest|
        ensures less(s[0], rest[j])
      {
        assert rest[j] in multiset(rest);
        if rest[j] != x {
          assert rest[j] in multiset(s[1..]);
          var k :| 0 <= k < |s[1..]| && s[1..][k] == rest[j];
          assert s[k + 1] == rest[j];
        }
      }
    } else if s != [] {
      forall j | 0 <= j < |s|
        ensures less(x, s[j])
      {
        assert less(x, s[0]);
        assert j > 0 ==> less(s[0], s[j]);
      }
    }
  }

  lemma {:induction false} SortBySorted<T(!new)>(s: seq<T>, less: (T, T) -> bool)
    requires Transitive(less) && Comparable(s, less)
    ensures SortedBy(SortBy(s, less), less)
  {
    if s != [] {
      SortBySorted(s[1..], less);
      var rest := SortBy(s[1..], less);
      forall i | 0 <= i < |rest|
        ensures less(s[0], rest[i]) || less(rest[i], s[0])
      {
        assert rest[i] in multiset(rest);
        var k :| 0 <= k < |s[1..]| && s[1..][k] == rest[i];
        assert s[k + 1] == rest[i];
      }
      InsertBySorted(s[0], rest, less);
    }
  }

  /** Strictly sorted sequences over the same elements are the same sequence. */
  lemma {:induction false} SortedSame<T(!new)>(s: seq<T>, t: seq<T>, less: (T, T) -> bool)
    requires Transitive(less) && (forall a :: !less(a, a))
    requires SortedBy(s, less) && SortedBy(t, less)
    requires forall x :: x in s <==> x in t
    ensures s == t
  {
    assert s != [] ==> s[0] in t;
    assert t != [] ==> t[0] in s;
    if s != [] {
      assert s[0] == t[0];
      forall x
        ensures x in s[1..] <==> x in t[1..]
      {
        TailMember(s, x, less);
        TailMember(t, x, less);
      }
      SortedSame(s[1..], t[1..], less);
    }
  }

  lemma {:induction false} TailMember<T(!new)>(s: seq<T>, x: T, less: (T, T) -> bool)
    requires s != [] && SortedBy(s, less) && forall a :: !less(a, a)
    ensures x in s[1..] <==> x in s && x != s[0]
  {
    if x in s[1..] {
      var k :| 0 <= k < |s[1..]| && s[1..][k] == x;
      assert less(s[0], s[k + 1]);
    }
  }

  // ---------------------------------------------------------------------------
  // Sorting with ties
  // ---------------------------------------------------------------------------

  /** A comparator whose "not after" is transitive, as `sort` asks for. */
  ghost predicate StrictWeak<T(!new)>(less: (T, T) -> bool) {
    && (forall a, b :: less(a, b) ==> !less(b, a))
    && (forall a, b, c :: !less(b, a) && !less(c, b) ==> !less(c, a))
  }

  ghost predicate OrderedBy<T>(s: seq<T>, less: (T, T) -> bool) {
    forall i, j :: 0 <= i < j < |s| ==> !less(s[j], s[i])
  }

  lemma {:induction false} InsertByOrdered<T(!new)>(x: T, s: seq<T>, less: (T, T) -> bool)
    requires StrictWeak(less) && OrderedBy(s, less)
    ensures OrderedBy(InsertBy(x, s, less), less)
  {
    if s != [] && less(s[0], x) {
      InsertByOrdered(x, s[1..], less);
      var rest := InsertBy(x, s[1..], less);
      forall j | 0 <= j < |rest|
        ensures !less(rest[j], s[0])
      {
        assert rest[j] in multiset(rest);
        if rest[j] != x {
          assert rest[j] in multiset(s[1..]);
          var k :| 0 <= k < |s[1..]| && s[1..][k] == rest[j];
          assert !less(s[k + 1], s[0]);
        }
      }
    } else if s != [] {
      forall j | 0 <= j < |s|
        ensures !less(s[j], x)
      {
        assert !less(s[0], x);
        assert j > 0 ==> !less(s[j], s[0]);
      }
    }
  }

  lemma {:induction false} SortByOrdered<T(!new)>(s: seq<T>, less: (T, T) -> bool)
    requires StrictWeak(less)
    ensures OrderedBy(SortBy(s, less), less)
  {
    if s != [] {
      SortByOrdered(s[1..], less);
      InsertByOrdered(s[0], SortBy(s[1..], less), less);
    }
  }
}
