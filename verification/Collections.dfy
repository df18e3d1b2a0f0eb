/** Shared vocabulary: an option type and the sequence operations the models are written in. */
module Collections {

  datatype Option<+T> = None | Some(value: T)

  /** The elements satisfying `p`, in order. */
  function Filter<T>(s: seq<T>, p: T -> bool): seq<T> {
    if s == [] then []
    else if p(s[0]) then [s[0]] + Filter(s[1..], p)
    else Filter(s[1..], p)
  }

  /** The results of `f` that are present, in order: what a loop with `continue` and `push` collects. */
  function FilterMap<A, B>(s: seq<A>, f: A -> Option<B>): seq<B> {
    if s == [] then []
    else (match f(s[0]) case None => [] case Some(b) => [b]) + FilterMap(s[1..], f)
  }

  /** The pointwise image, in order. */
  function Map<A, B>(s: seq<A>, f: A -> B): (r: seq<B>)
    ensures |r| == |s|
    ensures forall i :: 0 <= i < |s| ==> r[i] == f(s[i])
  {
    if s == [] then [] else [f(s[0])] + Map(s[1..], f)
  }

  /** One turn of a loop that pushes an image for each element. */
  lemma {:induction false} MapStep<A, B>(s: seq<A>, i: nat, f: A -> B)
    requires i < |s|
    ensures Map(s[..i + 1], f) == Map(s[..i], f) + [f(s[i])]
  {
  }

  /** The first element satisfying `p`. */
  function Find<T>(s: seq<T>, p: T -> bool): Option<T> {
    if s == [] then None else if p(s[0]) then Some(s[0]) else Find(s[1..], p)
  }

  /** A finished prefix in front of a result that may still fail. */
  function Prepend<T>(done: seq<T>, rest: Option<seq<T>>): (r: Option<seq<T>>)
    ensures done == [] ==> r == rest
    ensures rest == Some([]) ==> r == Some(done)
  {
    match rest
    case None => None
    case Some(t) =>
      assert done == [] ==> done + t == t;
      assert t == [] ==> done + t == done;
      Some(done + t)
  }

  lemma {:induction false} PrependStep<T>(done: seq<T>, x: T, rest: Option<seq<T>>)
    ensures Prepend(done, Prepend([x], rest)) == Prepend(done + [x], rest)
  {
    if rest.Some? {
      assert done + ([x] + rest.value) == done + [x] + rest.value;
    }
  }

  ghost predicate Distinct<T>(s: seq<T>) {
    forall i, j :: 0 <= i < j < |s| ==> s[i] != s[j]
  }

  lemma {:induction false} FilterAppend<T>(s: seq<T>, t: seq<T>, p: T -> bool)
    ensures Filter(s + t, p) == Filter(s, p) + Filter(t, p)
  {
    if s == [] {
      assert s + t == t;
    } else {
      assert (s + t)[0] == s[0] && (s + t)[1..] == s[1..] + t;
      FilterAppend(s[1..], t, p);
      if p(s[0]) {
        assert [s[0]] + (Filter(s[1..], p) + Filter(t, p)) == Filter(s, p) + Filter(t, p);
      }
    }
  }

  lemma {:induction false} FilterMapAppend<A, B>(s: seq<A>, t: seq<A>, f: A -> Option<B>)
    ensures FilterMap(s + t, f) == FilterMap(s, f) + FilterMap(t, f)
  {
    if s == [] {
      assert s + t == t;
    } else {
      assert (s + t)[0] == s[0] && (s + t)[1..] == s[1..] + t;
      FilterMapAppend(s[1..], t, f);
      var head := match f(s[0]) case None => [] case Some(b) => [b];
      assert head + (FilterMap(s[1..], f) + FilterMap(t, f)) == FilterMap(s, f) + FilterMap(t, f);
    }
  }

  /** One turn of a collecting loop. */
  lemma {:induction false} FilterMapStep<A, B>(s: seq<A>, i: nat, f: A -> Option<B>)
    requires i < |s|
    ensures FilterMap(s[..i + 1], f) ==
            FilterMap(s[..i], f) + match f(s[i]) case None => [] case Some(b) => [b]
  {
    assert s[..i + 1] == s[..i] + [s[i]];
    FilterMapAppend(s[..i], [s[i]], f);
  }

  lemma {:induction false} FilterMember<T>(s: seq<T>, p: T -> bool, x: T)
    ensures x in Filter(s, p) <==> x in s && p(x)
  {
    if s != [] {
      FilterMember(s[1..], p, x);
    }
  }

  lemma {:induction false} FilterMapMember<A, B>(s: seq<A>, f: A -> Option<B>, y: B)
    ensures y in FilterMap(s, f) <==> exists x :: x in s && f(x) == Some(y)
  {
    if s != [] {
      FilterMapMember(s[1..], f, y);
      assert s == [s[0]] + s[1..] && s[0] in s;
      forall x | x in s[1..]
        ensures x in s
      {
      }
    }
  }

  /** Two filters in a row are one. */
  lemma {:induction false} FilterTwice<T>(s: seq<T>, p: T -> bool, q: T -> bool, both: T -> bool)
    requires forall x :: both(x) <==> p(x) && q(x)
    ensures Filter(Filter(s, p), q) == Filter(s, both)
  {
    if s != [] {
      FilterTwice(s[1..], p, q, both);
    }
  }

  /** A filter and then an image is one pass that keeps some images. */
  lemma {:induction false} FilterThenMap<A, B>(s: seq<A>, p: A -> bool, f: A -> B, g: A -> Option<B>)
    requires forall x :: g(x) == if p(x) then Some(f(x)) else None
    ensures Map(Filter(s, p), f) == FilterMap(s, g)
  {
    if s != [] {
      FilterThenMap(s[1..], p, f, g);
    }
  }

  lemma {:induction false} FindSpec<T>(s: seq<T>, p: T -> bool)
    ensures Find(s, p).Some? ==> Find(s, p).value in s && p(Find(s, p).value)
    ensures Find(s, p).None? <==> forall x :: x in s ==> !p(x)
  {
    if s != [] && !p(s[0]) {
      FindSpec(s[1..], p);
    }
  }

  /** What is found is the first of its kind. */
  lemma {:induction false} FindAt<T>(s: seq<T>, p: T -> bool, k: nat)
    requires k < |s| && p(s[k]) && forall j :: 0 <= j < k ==> !p(s[j])
    ensures Find(s, p) == Some(s[k])
  {
    if k > 0 {
      FindAt(s[1..], p, k - 1);
    }
  }

  /** Every image, or nothing when any one is missing. */
  function Traverse<A, B>(s: seq<A>, f: A -> Option<B>): (r: Option<seq<B>>)
    ensures r.Some? <==> forall i :: 0 <= i < |s| ==> f(s[i]).Some?
    ensures r.Some? ==> |r.value| == |s| && forall i :: 0 <= i < |s| ==> Some(r.value[i]) == f(s[i])
  {
    if s == [] then Some([])
    else
      assert forall i :: 0 <= i < |s[1..]| ==> s[1..][i] == s[i + 1];
      match f(s[0])
      case None => None
      case Some(b) => Prepend([b], Traverse(s[1..], f))
  }

  /** The early-exit loop that computes `Traverse`, one turn at a time. */
  lemma {:induction false} TraverseStep<A, B>(s: seq<A>, i: nat, done: seq<B>, f: A -> Option<B>)
    requires i < |s| && f(s[i]).Some?
    ensures Prepend(done, Traverse(s[i..], f)) == Prepend(done + [f(s[i]).value], Traverse(s[i + 1..], f))
  {
    assert s[i..][0] == s[i] && s[i..][1..] == s[i + 1..];
    PrependStep(done, f(s[i]).value, Traverse(s[i + 1..], f));
  }

  /** What `FilterMap` keeps, in order, when `ok` says which elements have an image and `a`, `b` name the same thing before and after. */
  lemma {:induction false} KeptInOrder<A, B, K>(s: seq<A>, f: A -> Option<B>, ok: A -> bool, a: A -> K, b: B -> K)
    requires forall x :: x in s ==> (f(x).Some? <==> ok(x)) && (f(x).Some? ==> b(f(x).value) == a(x))
    ensures Map(FilterMap(s, f), b) == Map(Filter(s, ok), a)
  {
    if s != [] {
      KeptInOrder(s[1..], f, ok, a, b);
      assert s[0] in s;
    }
  }

  /** The lists `f` gives, one after another: what nested loops push. */
  function FlatMap<A, B>(s: seq<A>, f: A -> seq<B>): seq<B> {
    if s == [] then [] else f(s[0]) + FlatMap(s[1..], f)
  }

  lemma {:induction false} FlatMapAppend<A, B>(s: seq<A>, t: seq<A>, f: A -> seq<B>)
    ensures FlatMap(s + t, f) == FlatMap(s, f) + FlatMap(t, f)
  {
    if s == [] {
      assert s + t == t;
    } else {
      assert (s + t)[0] == s[0] && (s + t)[1..] == s[1..] + t;
      FlatMapAppend(s[1..], t, f);
      assert f(s[0]) + (FlatMap(s[1..], f) + FlatMap(t, f)) == FlatMap(s, f) + FlatMap(t, f);
    }
  }

  lemma {:induction false} FlatMapStep<A, B>(s: seq<A>, i: nat, f: A -> seq<B>)
    requires i < |s|
    ensures FlatMap(s[..i + 1], f) == FlatMap(s[..i], f) + f(s[i])
  {
    assert s[..i + 1] == s[..i] + [s[i]];
    FlatMapAppend(s[..i], [s[i]], f);
    assert FlatMap([s[i]], f) == f(s[i]) + FlatMap([], f);
  }

  lemma {:induction false} FlatMapMember<A, B>(s: seq<A>, f: A -> seq<B>, y: B)
    ensures y in FlatMap(s, f) <==> exists x :: x in s && y in f(x)
  {
    if s != [] {
      FlatMapMember(s[1..], f, y);
      assert s == [s[0]] + s[1..];
      if x: A :| x in s && y in f(x) {
        assert x == s[0] || x in s[1..];
      }
      if y in FlatMap(s, f) && y !in f(s[0]) {
        var x :| x in s[1..] && y in f(x);
        assert x in s;
      }
      if y in f(s[0]) {
        assert s[0] in s;
      }
    }
  }
}
