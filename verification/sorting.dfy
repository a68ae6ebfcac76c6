/** The two result orders the routes ask the database for
    (`orderBy: { name: 'asc' }` and `orderBy: { createdAt: 'desc' }`), and the
    enumeration of a table whose rows come back in an order the database
    chooses. */
module Sorting {
  import opened Base
  import opened Text

  /** Every element's key is at most the key of every later element. */
  predicate AscendingBy<T>(xs: seq<T>, key: T -> string) {
    forall i, j :: 0 <= i < j < |xs| ==> TextLe(key(xs[i]), key(xs[j]))
  }

  /** Every element's time is at least the time of every later element. */
  predicate NewestFirst<T>(xs: seq<T>, time: T -> int) {
    forall i, j :: 0 <= i < j < |xs| ==> time(xs[i]) >= time(xs[j])
  }

  /** A property held by `x` and by every element of `rest` holds for every
      element of a sequence with the same elements plus `x`. */
  lemma AllHold<T>(tail: seq<T>, rest: seq<T>, x: T, p: T -> bool)
    requires multiset(tail) == multiset(rest) + multiset{x}
    requires p(x) && forall j :: 0 <= j < |rest| ==> p(rest[j])
    ensures forall j :: 0 <= j < |tail| ==> p(tail[j])
  {
    forall j | 0 <= j < |tail|
      ensures p(tail[j])
    {
      assert tail[j] in multiset(tail);
      if tail[j] != x {
        assert tail[j] in multiset(rest);
        var m :| 0 <= m < |rest| && rest[m] == tail[j];
      }
    }
  }

  /** An element whose key is at most every key of an ascending sequence
      may go in front of it. */
  lemma PrependAscending<T>(x: T, xs: seq<T>, key: T -> string)
    requires AscendingBy(xs, key)
    requires forall j :: 0 <= j < |xs| ==> TextLe(key(x), key(xs[j]))
    ensures AscendingBy([x] + xs, key)
  {
    var r := [x] + xs;
    forall i, j | 0 <= i < j < |r| ensures TextLe(key(r[i]), key(r[j])) {
      if i > 0 {
        assert r[i] == xs[i - 1] && r[j] == xs[j - 1];
      } else {
        assert r[j] == xs[j - 1];
      }
    }
  }

  function InsertAscending<T>(x: T, xs: seq<T>, key: T -> string): (r: seq<T>)
    requires AscendingBy(xs, key)
    ensures AscendingBy(r, key)
    ensures multiset(r) == multiset(xs) + multiset{x}
  {
    if |xs| == 0 then [x]
    else if TextLe(key(x), key(xs[0])) then
      assert forall j :: 0 <= j < |xs| ==> TextLe(key(x), key(xs[j])) by {
        forall j | 0 < j < |xs| {
          TextLeTransitive(key(x), key(xs[0]), key(xs[j]));
        }
      }
      PrependAscending(x, xs, key);
      [x] + xs
    else
      var tail := InsertAscending(x, xs[1..], key);
      TextLeTotal(key(x), key(xs[0]));
      assert xs == [xs[0]] + xs[1..];
      AllHold(tail, xs[1..], x, (y: T) => TextLe(key(xs[0]), key(y)));
      PrependAscending(xs[0], tail, key);
      [xs[0]] + tail
  }

  /** `orderBy: { <key>: 'asc' }`: the same elements, in ascending key order. */
  function SortAscending<T>(xs: seq<T>, key: T -> string): (r: seq<T>)
    ensures AscendingBy(r, key)
    ensures multiset(r) == multiset(xs)
  {
    if |xs| == 0 then []
    else
      assert xs == xs[..|xs| - 1] + [xs[|xs| - 1]];
      InsertAscending(xs[|xs| - 1], SortAscending(xs[..|xs| - 1], key), key)
  }

  /** An element at least as recent as every element of a newest-first
      sequence may go in front of it. */
  lemma PrependNewest<T>(x: T, xs: seq<T>, time: T -> int)
    requires NewestFirst(xs, time)
    requires forall j :: 0 <= j < |xs| ==> time(x) >= time(xs[j])
    ensures NewestFirst([x] + xs, time)
  {
    var r := [x] + xs;
    forall i, j | 0 <= i < j < |r| ensures time(r[i]) >= time(r[j]) {
      if i > 0 {
        assert r[i] == xs[i - 1] && r[j] == xs[j - 1];
      } else {
        assert r[j] == xs[j - 1];
      }
    }
  }

  function InsertNewest<T>(x: T, xs: seq<T>, time: T -> int): (r: seq<T>)
    requires NewestFirst(xs, time)
    ensures NewestFirst(r, time)
    ensures multiset(r) == multiset(xs) + multiset{x}
  {
    if |xs| == 0 then [x]
    else if time(x) >= time(xs[0]) then
      PrependNewest(x, xs, time);
      [x] + xs
    else
      var tail := InsertNewest(x, xs[1..], time);
      assert xs == [xs[0]] + xs[1..];
      AllHold(tail, xs[1..], x, (y: T) => time(xs[0]) >= time(y));
      PrependNewest(xs[0], tail, time);
      [xs[0]] + tail
  }

  /** `orderBy: { <time>: 'desc' }`: the same elements, newest first. */
  function SortNewestFirst<T>(xs: seq<T>, time: T -> int): (r: seq<T>)
    ensures NewestFirst(r, time)
    ensures multiset(r) == multiset(xs)
  {
    if |xs| == 0 then []
    else
      assert xs == xs[..|xs| - 1] + [xs[|xs| - 1]];
      InsertNewest(xs[|xs| - 1], SortNewestFirst(xs[..|xs| - 1], time), time)
  }

  /** Two sequences with the same multiset of elements have the same
      length and the same members. */
  lemma SameElements<T>(a: seq<T>, b: seq<T>)
    requires multiset(a) == multiset(b)
    ensures |a| == |b|
    ensures forall x :: x in a ==> x in b
    ensures forall x :: x in b ==> x in a
  {
    assert |multiset(a)| == |multiset(b)|;
    forall x ensures x in a <==> x in b {
      assert x in a <==> x in multiset(a);
      assert x in b <==> x in multiset(b);
    }
  }

  /** The first `n` elements of a newest-first sequence are at least as
      recent as every element after them. */
  lemma NewestPrefix<T>(xs: seq<T>, n: nat, time: T -> int)
    requires NewestFirst(xs, time) && n <= |xs|
    ensures forall x, i :: x in xs && x !in xs[..n] && 0 <= i < n ==> time(xs[i]) >= time(x)
  {
    forall x, i | x in xs && x !in xs[..n] && 0 <= i < n
      ensures time(xs[i]) >= time(x)
    {
      var j :| 0 <= j < |xs| && xs[j] == x;
    }
  }

  /** No element occurs twice. */
  predicate Distinct<T(==)>(xs: seq<T>) {
    forall i, j :: 0 <= i < j < |xs| ==> xs[i] != xs[j]
  }

  /** No row is stored under two keys. */
  predicate Injective<V(==)>(m: map<Id, V>) {
    forall a, b :: a in m && b in m && m[a] == m[b] ==> a == b
  }

  /** A sequence has no repeated element exactly when each element occurs
      at most once in its multiset. */
  lemma {:induction false} DistinctCounts<T>(xs: seq<T>)
    ensures Distinct(xs) <==> forall x :: multiset(xs)[x] <= 1
  {
    if |xs| > 0 {
      var t := xs[1..];
      DistinctCounts(t);
      assert xs == [xs[0]] + t;
      assert forall x :: multiset(xs)[x] == multiset(t)[x] + (if x == xs[0] then 1 else 0);
      assert forall i :: 0 <= i < |t| ==> t[i] == xs[i + 1];
      if Distinct(xs) {
        assert xs[0] !in t;
        assert Distinct(t) by {
          forall i, j | 0 <= i < j < |t| ensures t[i] != t[j] {
            assert xs[i + 1] != xs[j + 1];
          }
        }
      }
      if forall x :: multiset(xs)[x] <= 1 {
        assert multiset(t)[xs[0]] == 0;
        forall i, j | 0 <= i < j < |xs| ensures xs[i] != xs[j] {
          if i == 0 {
            assert xs[j] in t;
          } else {
            assert t[i - 1] != t[j - 1];
          }
        }
      }
    }
  }

  /** Reordering keeps a sequence free of repeats. */
  lemma PermutationKeepsDistinct<T>(a: seq<T>, b: seq<T>)
    requires multiset(a) == multiset(b) && Distinct(b)
    ensures Distinct(a)
  {
    DistinctCounts(a);
    DistinctCounts(b);
  }

  /** A prefix holds no element more often than the whole, and inherits its
      freedom from repeats. */
  lemma PrefixTaken<T>(xs: seq<T>, n: nat)
    requires n <= |xs|
    ensures multiset(xs[..n]) <= multiset(xs)
    ensures Distinct(xs) ==> Distinct(xs[..n])
  {
    assert xs == xs[..n] + xs[n..];
  }

  /** `orderBy: { <time>: 'desc' }, take: n`: the `n` newest elements (all
      of them when there are fewer), newest first, each taken from `xs` no
      more often than it occurs there. */
  method TakeNewest<T(==)>(xs: seq<T>, n: nat, time: T -> int) returns (top: seq<T>)
    ensures |top| == if |xs| < n then |xs| else n
    ensures NewestFirst(top, time)
    ensures multiset(top) <= multiset(xs)
    ensures Distinct(xs) ==> Distinct(top)
    ensures forall x :: x in top ==> x in xs
    ensures forall x, i :: x in xs && x !in top && 0 <= i < |top| ==> time(top[i]) >= time(x)
  {
    var sorted := SortNewestFirst(xs, time);
    SameElements(sorted, xs);
    var m := if |sorted| < n then |sorted| else n;
    top := sorted[..m];
    PrefixTaken(sorted, m);
    if Distinct(xs) {
      PermutationKeepsDistinct(sorted, xs);
    }
    NewestPrefix(sorted, m, time);
    forall x | x in top
      ensures x in xs
    {
      var j :| 0 <= j < m && top[j] == x;
      assert x == sorted[j];
      assert x in sorted;
    }
  }

  /** The keys of a table, each once, in whatever order the store yields them. */
  method KeysOf<V>(m: map<Id, V>) returns (ks: seq<Id>)
    ensures forall k :: k in ks <==> k in m
    ensures forall i, j :: 0 <= i < j < |ks| ==> ks[i] != ks[j]
    ensures |ks| == |m|
  {
    ks := [];
    var rest := m.Keys;
    while rest != {}
      invariant forall k :: k in m <==> k in rest || k in ks
      invariant forall k :: k in ks ==> k !in rest
      invariant forall i, j :: 0 <= i < j < |ks| ==> ks[i] != ks[j]
      invariant |ks| + |rest| == |m|
      decreases rest
    {
      var k :| k in rest;
      ks := ks + [k];
      rest := rest - {k};
    }
  }

  /** Every row of a table, each once, in store order. */
  method ValuesOf<V(==)>(m: map<Id, V>) returns (vs: seq<V>)
    ensures |vs| == |m|
    ensures forall v :: v in vs <==> v in m.Values
    ensures forall i, j :: 0 <= i < j < |vs| ==> exists a, b :: a in m && b in m && a != b && m[a] == vs[i] && m[b] == vs[j]
    ensures Injective(m) ==> Distinct(vs)
  {
    var ks := KeysOf(m);
    vs := seq(|ks|, i requires 0 <= i < |ks| => m[ks[i]]);
    assert forall v :: v in m.Values ==> v in vs by {
      forall v | v in m.Values ensures v in vs {
        var k :| k in m && m[k] == v;
        var i :| 0 <= i < |ks| && ks[i] == k;
        assert vs[i] == v;
      }
    }
  }

  /** The rows of a table that satisfy a filter, in store order; a row
      stored under one key only comes back once. */
  method RowsWhere<V(==)>(m: map<Id, V>, keep: V -> bool) returns (rows: seq<V>)
    ensures forall v :: v in rows <==> v in m.Values && keep(v)
    ensures Injective(m) ==> Distinct(rows)
  {
    var ks := KeysOf(m);
    rows := [];
    var i := 0;
    while i < |ks|
      invariant 0 <= i <= |ks|
      invariant forall v :: v in rows <==> exists n :: 0 <= n < i && m[ks[n]] == v && keep(v)
      invariant Injective(m) ==> Distinct(rows)
    {
      if keep(m[ks[i]]) {
        rows := rows + [m[ks[i]]];
      }
      i := i + 1;
    }
  }
}
