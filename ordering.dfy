/** The orders FileService sorts by. `compareToIgnoreCase` is lexicographic
    order on the (ASCII) lower-cased names; `List.sort` is a library routine,
    modelled by a stable insertion sort whose result is proved sorted and a
    permutation of its input. */
module Ordering {
  import opened Strings

  /** Lexicographic order on character codes with a proper prefix first: the
      sign of Java's String.compareTo. */
  predicate LexLeq(a: string, b: string)
  {
    a == [] || (b != [] && (a[0] < b[0] || (a[0] == b[0] && LexLeq(a[1..], b[1..]))))
  }

  lemma {:induction false} LexLeqTotal(a: string, b: string)
    ensures LexLeq(a, b) || LexLeq(b, a)
  {
    if a != [] && b != [] && a[0] == b[0] {
      LexLeqTotal(a[1..], b[1..]);
    }
  }

  lemma {:induction false} LexLeqTransitive(a: string, b: string, c: string)
    requires LexLeq(a, b) && LexLeq(b, c)
    ensures LexLeq(a, c)
  {
    if a != [] && a[0] == b[0] && b[0] == c[0] {
      LexLeqTransitive(a[1..], b[1..], c[1..]);
    }
  }

  lemma {:induction false} LexLeqAntisymmetric(a: string, b: string)
    requires LexLeq(a, b) && LexLeq(b, a)
    ensures a == b
  {
    if a != [] {
      LexLeqAntisymmetric(a[1..], b[1..]);
      assert a == [a[0]] + a[1..] && b == [b[0]] + b[1..];
    }
  }

  /** `a.compareToIgnoreCase(b) <= 0`. */
  predicate NameLeq(a: string, b: string)
  {
    LexLeq(Lower(a), Lower(b))
  }

  /** A sort key: a group rank compared first, then a text compared
      lexicographically. */
  datatype SortKey = SortKey(group: nat, text: string)

  predicate KeyLeq(x: SortKey, y: SortKey)
  {
    x.group < y.group || (x.group == y.group && LexLeq(x.text, y.text))
  }

  /** KeyLeq is a total preorder. */
  lemma KeyLeqTotalPreorder()
    ensures forall x, y :: KeyLeq(x, y) || KeyLeq(y, x)
    ensures forall x, y, z :: KeyLeq(x, y) && KeyLeq(y, z) ==> KeyLeq(x, z)
  {
    forall x, y ensures KeyLeq(x, y) || KeyLeq(y, x) {
      LexLeqTotal(x.text, y.text);
    }
    forall x, y, z | KeyLeq(x, y) && KeyLeq(y, z) ensures KeyLeq(x, z) {
      if x.group == y.group == z.group {
        LexLeqTransitive(x.text, y.text, z.text);
      }
    }
  }

  predicate SortedBy<T>(s: seq<T>, key: T -> SortKey)
  {
    forall i, j :: 0 <= i < j < |s| ==> KeyLeq(key(s[i]), key(s[j]))
  }

  /** `x` placed before the first element it does not follow. */
  function Insert<T>(x: T, s: seq<T>, key: T -> SortKey): (r: seq<T>)
    requires SortedBy(s, key)
    ensures SortedBy(r, key)
    ensures multiset(r) == multiset(s) + multiset{x}
  {
    if s == [] then [x]
    else if KeyLeq(key(x), key(s[0])) then
      KeyLeqTotalPreorder();
      assert s == [s[0]] + s[1..];
      [x] + s
    else
      var rest := Insert(x, s[1..], key);
      InsertBehindHead(x, s, key, rest);
      assert s == [s[0]] + s[1..];
      [s[0]] + rest
  }

  /** The head of `s` may stay in front when `x` goes after it: everything
      `x` is inserted among follows the head. */
  lemma InsertBehindHead<T>(x: T, s: seq<T>, key: T -> SortKey, rest: seq<T>)
    requires s != [] && SortedBy(s, key) && !KeyLeq(key(x), key(s[0]))
    requires SortedBy(rest, key) && multiset(rest) == multiset(s[1..]) + multiset{x}
    ensures SortedBy([s[0]] + rest, key)
  {
    forall k | 0 <= k < |rest|
      ensures KeyLeq(key(s[0]), key(rest[k]))
    {
      assert rest[k] in multiset(rest);
      if rest[k] == x {
        LexLeqTotal(key(x).text, key(s[0]).text);
      } else {
        assert rest[k] in s[1..];
        var j :| 1 <= j < |s| && s[j] == rest[k];
      }
    }
    var r := [s[0]] + rest;
    forall i, j | 0 <= i < j < |r|
      ensures KeyLeq(key(r[i]), key(r[j]))
    {
      if i > 0 {
        assert r[i] == rest[i - 1] && r[j] == rest[j - 1];
      }
    }
  }

  /** List.sort with a comparator that compares keys: a sorted permutation. */
  function SortBy<T>(s: seq<T>, key: T -> SortKey): (r: seq<T>)
    ensures SortedBy(r, key)
    ensures multiset(r) == multiset(s)
    ensures |r| == |s|
  {
    if s == [] then []
    else
      assert s == [s[0]] + s[1..];
      Insert(s[0], SortBy(s[1..], key), key)
  }
}
