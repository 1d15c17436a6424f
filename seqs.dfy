/** Generic sequence helpers shared by the tree walks: map, filter and
    flat-map, each defined from the last element so that a loop over a
    prefix `s[..i]` unfolds them one step at a time. */
module Seqs {

  function MapSeq<A, B>(f: A -> B, s: seq<A>): (r: seq<B>)
    ensures |r| == |s|
  {
    if s == [] then [] else MapSeq(f, s[..|s| - 1]) + [f(s[|s| - 1])]
  }

  /** The i-th element of the map is `f` of the i-th element. */
  lemma {:induction false} MapSeqPointwise<A, B>(f: A -> B, s: seq<A>)
    ensures forall i :: 0 <= i < |s| ==> MapSeq(f, s)[i] == f(s[i])
    decreases |s|
  {
    if s != [] {
      MapSeqPointwise(f, s[..|s| - 1]);
    }
  }

  function Filter<T>(s: seq<T>, p: T -> bool): (r: seq<T>)
  {
    if s == [] then [] else
      Filter(s[..|s| - 1], p) + (if p(s[|s| - 1]) then [s[|s| - 1]] else [])
  }

  function FlatMap<A, B>(f: A -> seq<B>, s: seq<A>): seq<B>
  {
    if s == [] then [] else FlatMap(f, s[..|s| - 1]) + f(s[|s| - 1])
  }

  /** `s` cut to at most `n` elements; a non-positive `n` keeps nothing. */
  function Take<T>(s: seq<T>, n: int): (r: seq<T>)
    ensures |r| == if n <= 0 then 0 else if n < |s| then n else |s|
  {
    if n <= 0 then [] else if n < |s| then s[..n] else s
  }

  /** What Take keeps is a prefix of the sequence. */
  lemma TakeIsPrefix<T>(s: seq<T>, n: int)
    ensures Take(s, n) == s[..|Take(s, n)|]
  {
  }

  lemma {:induction false} MapSeqConcat<A, B>(f: A -> B, a: seq<A>, b: seq<A>)
    ensures MapSeq(f, a + b) == MapSeq(f, a) + MapSeq(f, b)
    decreases |b|
  {
    if b == [] {
      assert a + b == a;
    } else {
      assert (a + b)[..|a + b| - 1] == a + b[..|b| - 1];
      MapSeqConcat(f, a, b[..|b| - 1]);
    }
  }

  lemma ConcatAssoc<T>(a: seq<T>, b: seq<T>, c: seq<T>)
    ensures a + b + c == a + (b + c)
  {
  }

  lemma MapSeqSingleton<A, B>(f: A -> B, x: A, keep: bool)
    ensures MapSeq(f, if keep then [x] else []) == if keep then [f(x)] else []
  {
  }

  lemma {:induction false} FilterConcat<T>(a: seq<T>, b: seq<T>, p: T -> bool)
    ensures Filter(a + b, p) == Filter(a, p) + Filter(b, p)
    decreases |b|
  {
    if b == [] {
      assert a + b == a;
    } else {
      var b' := b[..|b| - 1];
      assert (a + b)[..|a + b| - 1] == a + b';
      FilterConcat(a, b', p);
    }
  }

  /** Filtering a sequence extended by one element. */
  lemma FilterSnoc<T>(s: seq<T>, x: T, p: T -> bool)
    ensures Filter(s + [x], p) == Filter(s, p) + (if p(x) then [x] else [])
  {
    assert (s + [x])[..|s|] == s;
  }

  lemma {:induction false} FilterMembership<T>(s: seq<T>, p: T -> bool, x: T)
    ensures x in Filter(s, p) <==> x in s && p(x)
    decreases |s|
  {
    if s != [] {
      var s' := s[..|s| - 1];
      FilterMembership(s', p, x);
      assert s == s' + [s[|s| - 1]];
    }
  }

  lemma {:induction false} FlatMapConcat<A, B>(f: A -> seq<B>, a: seq<A>, b: seq<A>)
    ensures FlatMap(f, a + b) == FlatMap(f, a) + FlatMap(f, b)
    decreases |b|
  {
    if b == [] {
      assert a + b == a;
    } else {
      var b' := b[..|b| - 1];
      assert (a + b)[..|a + b| - 1] == a + b';
      FlatMapConcat(f, a, b');
    }
  }

  /** Cutting a concatenation: the first part is used up before the second. */
  lemma TakeConcat<T>(a: seq<T>, b: seq<T>, n: int)
    ensures Take(a + b, n) == if n <= |a| then Take(a, n) else a + Take(b, n - |a|)
  {
    if n > |a| {
      TakeIsPrefix(a + b, n);
      TakeIsPrefix(b, n - |a|);
      assert Take(a + b, n) == (a + b)[..|Take(a + b, n)|];
      assert (a + b)[..|Take(a + b, n)|] == a + b[..|Take(b, n - |a|)|];
    }
  }

  /** An element of `s` is mapped into the result, and every element of the
      result is the image of an element of `s`. */
  lemma MapSeqMembership<A, B>(f: A -> B, s: seq<A>, y: B)
    ensures y in MapSeq(f, s) <==> exists i :: 0 <= i < |s| && f(s[i]) == y
  {
    MapSeqPointwise(f, s);
    if y in MapSeq(f, s) {
      var i :| 0 <= i < |s| && MapSeq(f, s)[i] == y;
    }
  }

  /** A prefix shorter than the limit is kept whole and the limit, less its
      length, passes on to what follows. */
  lemma TakeStep<T>(p: seq<T>, f: seq<T>, n: int)
    requires |p| < n
    ensures Take(p + f, n) == p + Take(f, n - |p|)
  {
    TakeConcat(p, f, n);
  }

  /** Once the prefix reaches the limit, what follows is cut off. */
  lemma TakeFull<T>(p: seq<T>, f: seq<T>, n: int)
    requires n <= |p|
    ensures Take(p + f, n) == Take(p, n)
  {
    TakeConcat(p, f, n);
  }

  lemma FlatMapSingleton<A, B>(f: A -> seq<B>, x: A)
    ensures FlatMap(f, [x]) == f(x)
  {
    assert [x][..0] == [];
  }

  /** An element of a flat map comes from the image of some element, and
      every element of every image is in the flat map. */
  lemma {:induction false} FlatMapMembership<A, B>(f: A -> seq<B>, s: seq<A>, y: B)
    ensures y in FlatMap(f, s) <==> exists i :: 0 <= i < |s| && y in f(s[i])
    decreases |s|
  {
    if s != [] {
      var s' := s[..|s| - 1];
      FlatMapMembership(f, s', y);
      if exists i :: 0 <= i < |s| && y in f(s[i]) {
        var i :| 0 <= i < |s| && y in f(s[i]);
        if i < |s| - 1 {
          assert s'[i] == s[i];
        }
      }
      if exists i :: 0 <= i < |s'| && y in f(s'[i]) {
        var i :| 0 <= i < |s'| && y in f(s'[i]);
        assert s[i] == s'[i];
      }
    }
  }
}
