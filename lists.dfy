/** List operations the scraper takes from Python: de-duplication that keeps
    the first occurrence of each key, the sort behind sorted() and
    list.sort(key=...), and the order Python uses on str. */
module Lists {

  /** Python's `<=` on str: code points compared left to right, a proper
      prefix before any of its extensions. */
  predicate LexLe(a: string, b: string) {
    a == [] || (b != [] && (a[0] < b[0] || (a[0] == b[0] && LexLe(a[1..], b[1..]))))
  }

  lemma {:induction false} LexLeTotal(a: string, b: string)
    ensures LexLe(a, b) || LexLe(b, a)
    decreases |a|
  {
    if a != [] && b != [] && a[0] == b[0] {
      LexLeTotal(a[1..], b[1..]);
    }
  }

  lemma {:induction false} LexLeTrans(a: string, b: string, c: string)
    requires LexLe(a, b) && LexLe(b, c)
    ensures LexLe(a, c)
    decreases |a|
  {
    if a != [] && a[0] == b[0] && b[0] == c[0] {
      LexLeTrans(a[1..], b[1..], c[1..]);
    }
  }

  lemma {:induction false} LexLeAntisymmetric(a: string, b: string)
    requires LexLe(a, b) && LexLe(b, a)
    ensures a == b
    decreases |a|
  {
    if a != [] {
      LexLeAntisymmetric(a[1..], b[1..]);
      assert a == [a[0]] + a[1..] && b == [b[0]] + b[1..];
    }
  }

  /** le is total and transitive: the comparison a key function induces. */
  ghost predicate TotalPreorder<T(!new)>(le: (T, T) -> bool) {
    (forall a, b :: le(a, b) || le(b, a)) &&
    (forall a, b, c :: le(a, b) && le(b, c) ==> le(a, c))
  }

  predicate SortedBy<T>(s: seq<T>, le: (T, T) -> bool) {
    forall i, j :: 0 <= i < j < |s| ==> le(s[i], s[j])
  }

  /** x placed in front of the first element it does not follow. */
  function InsertBy<T>(x: T, s: seq<T>, le: (T, T) -> bool): (r: seq<T>)
    ensures |r| == |s| + 1
    ensures multiset(r) == multiset(s) + multiset{x}
  {
    if s == [] then [x]
    else if le(x, s[0]) then [x] + s
    else
      assert s == [s[0]] + s[1..];
      [s[0]] + InsertBy(x, s[1..], le)
  }

  /** Python's sorted(s, key=...): an element is inserted in front of the
      equal elements that come after it in s. */
  function SortBy<T>(s: seq<T>, le: (T, T) -> bool): (r: seq<T>)
    ensures |r| == |s|
    ensures multiset(r) == multiset(s)
  {
    if s == [] then []
    else
      assert s == [s[0]] + s[1..];
      InsertBy(s[0], SortBy(s[1..], le), le)
  }

  lemma {:induction false} InsertSorted<T(!new)>(x: T, s: seq<T>, le: (T, T) -> bool)
    requires TotalPreorder(le) && SortedBy(s, le)
    ensures SortedBy(InsertBy(x, s, le), le)
    decreases |s|
  {
    if s != [] && !le(x, s[0]) {
      var rest := InsertBy(x, s[1..], le);
      InsertSorted(x, s[1..], le);
      assert le(s[0], x);
      forall j | 0 <= j < |rest| ensures le(s[0], rest[j]) {
        assert rest[j] in multiset(rest);
        if rest[j] != x {
          assert rest[j] in multiset(s[1..]);
          var k :| 0 <= k < |s[1..]| && s[1..][k] == rest[j];
          assert s[k + 1] == rest[j];
        }
      }
      var r := [s[0]] + rest;
      forall i, j | 0 <= i < j < |r| ensures le(r[i], r[j]) {
        if i == 0 {
          assert r[j] == rest[j - 1];
        } else {
          assert r[i] == rest[i - 1] && r[j] == rest[j - 1];
        }
      }
    } else if s != [] {
      var r := [x] + s;
      forall i, j | 0 <= i < j < |r| ensures le(r[i], r[j]) {
        if i == 0 {
          assert le(s[0], s[j - 1]) || j - 1 == 0;
        }
      }
    }
  }

  /** The result of SortBy is ordered by le. */
  lemma {:induction false} SortBySorted<T(!new)>(s: seq<T>, le: (T, T) -> bool)
    requires TotalPreorder(le)
    ensures SortedBy(SortBy(s, le), le)
    decreases |s|
  {
    if s != [] {
      SortBySorted(s[1..], le);
      InsertSorted(s[0], SortBy(s[1..], le), le);
    }
  }

  /** No two positions of s carry the same key. */
  predicate DistinctKeys<T, K(==)>(s: seq<T>, key: T -> K) {
    forall i, j :: 0 <= i < j < |s| ==> key(s[i]) != key(s[j])
  }

  lemma {:induction false} InsertKeepsDistinctKeys<T, K>(x: T, s: seq<T>, le: (T, T) -> bool, key: T -> K)
    requires DistinctKeys(s, key)
    requires forall i :: 0 <= i < |s| ==> key(s[i]) != key(x)
    ensures DistinctKeys(InsertBy(x, s, le), key)
    decreases |s|
  {
    if s != [] && !le(x, s[0]) {
      var rest := InsertBy(x, s[1..], le);
      InsertKeepsDistinctKeys(x, s[1..], le, key);
      forall j | 0 <= j < |rest| ensures key(s[0]) != key(rest[j]) {
        assert rest[j] in multiset(rest);
        if rest[j] != x {
          assert rest[j] in multiset(s[1..]);
          var k :| 0 <= k < |s[1..]| && s[1..][k] == rest[j];
          assert s[k + 1] == rest[j];
        }
      }
      var r := [s[0]] + rest;
      forall i, j | 0 <= i < j < |r| ensures key(r[i]) != key(r[j]) {
        if i == 0 {
          assert r[j] == rest[j - 1];
        } else {
          assert r[i] == rest[i - 1] && r[j] == rest[j - 1];
        }
      }
    } else if s != [] {
      var r := [x] + s;
      forall i, j | 0 <= i < j < |r| ensures key(r[i]) != key(r[j]) {
        if i > 0 {
          assert r[i] == s[i - 1] && r[j] == s[j - 1];
        }
      }
    }
  }

  /** Sorting neither creates nor removes a repeated key. */
  lemma {:induction false} SortKeepsDistinctKeys<T, K>(s: seq<T>, le: (T, T) -> bool, key: T -> K)
    requires DistinctKeys(s, key)
    ensures DistinctKeys(SortBy(s, le), key)
    decreases |s|
  {
    if s != [] {
      var rest := SortBy(s[1..], le);
      SortKeepsDistinctKeys(s[1..], le, key);
      forall i | 0 <= i < |rest| ensures key(rest[i]) != key(s[0]) {
        assert rest[i] in multiset(s[1..]);
        var k :| 0 <= k < |s[1..]| && s[1..][k] == rest[i];
        assert s[k + 1] == rest[i];
      }
      InsertKeepsDistinctKeys(s[0], rest, le, key);
    }
  }

  /** The keys that occur in s. */
  function KeysOf<T, K(==)>(s: seq<T>, key: T -> K): (r: set<K>)
    ensures forall i :: 0 <= i < |s| ==> key(s[i]) in r
  {
    if s == [] then {} else KeysOf(s[..|s| - 1], key) + {key(s[|s| - 1])}
  }

  lemma {:induction false} KeysOfWitness<T, K>(s: seq<T>, key: T -> K, k: K)
    requires k in KeysOf(s, key)
    ensures exists i :: 0 <= i < |s| && key(s[i]) == k
    decreases |s|
  {
    var p := s[..|s| - 1];
    if k in KeysOf(p, key) {
      KeysOfWitness(p, key, k);
      var i :| 0 <= i < |p| && key(p[i]) == k;
      assert s[i] == p[i];
    }
  }

  /** The position of the first element of s whose key is k. */
  function FirstIndex<T, K(==)>(s: seq<T>, key: T -> K, k: K): (i: nat)
    requires k in KeysOf(s, key)
    ensures i < |s| && key(s[i]) == k
    ensures forall j :: 0 <= j < i ==> key(s[j]) != k
  {
    var p := s[..|s| - 1];
    if k in KeysOf(p, key) then FirstIndex(p, key, k)
    else
      assert forall j :: 0 <= j < |p| ==> p[j] == s[j];
      |s| - 1
  }

  /** s with every element dropped whose key an earlier element already had. */
  function Dedup<T, K(==)>(s: seq<T>, key: T -> K): (r: seq<T>)
    ensures |r| <= |s|
  {
    if s == [] then []
    else
      var r := Dedup(s[..|s| - 1], key);
      if key(s[|s| - 1]) in KeysOf(r, key) then r else r + [s[|s| - 1]]
  }

  lemma {:induction false} DedupKeys<T, K>(s: seq<T>, key: T -> K)
    ensures KeysOf(Dedup(s, key), key) == KeysOf(s, key)
    decreases |s|
  {
    if s != [] {
      var p := s[..|s| - 1];
      var r := Dedup(p, key);
      DedupKeys(p, key);
      if key(s[|s| - 1]) !in KeysOf(r, key) {
        assert (r + [s[|s| - 1]])[..|r|] == r;
      }
    }
  }

  /** Every key is kept exactly once. */
  lemma {:induction false} DedupDistinct<T, K>(s: seq<T>, key: T -> K)
    ensures DistinctKeys(Dedup(s, key), key)
    decreases |s|
  {
    if s != [] {
      var p := s[..|s| - 1];
      DedupDistinct(p, key);
    }
  }

  /** Each kept element is the first element of s that carries its key. */
  lemma {:induction false} DedupFirst<T, K>(s: seq<T>, key: T -> K)
    ensures forall i :: 0 <= i < |Dedup(s, key)| ==>
      key(Dedup(s, key)[i]) in KeysOf(s, key) &&
      Dedup(s, key)[i] == s[FirstIndex(s, key, key(Dedup(s, key)[i]))]
    decreases |s|
  {
    DedupKeys(s, key);
    if s != [] {
      var p := s[..|s| - 1];
      var r := Dedup(p, key);
      DedupFirst(p, key);
      DedupKeys(p, key);
      forall i | 0 <= i < |Dedup(s, key)|
        ensures Dedup(s, key)[i] == s[FirstIndex(s, key, key(Dedup(s, key)[i]))]
      {
        if i < |r| {
          assert Dedup(s, key)[i] == r[i];
          assert FirstIndex(s, key, key(r[i])) == FirstIndex(p, key, key(r[i]));
        }
      }
    }
  }

  /** The keys of r all occur in s, and r lists them in the order of their
      first occurrence in s. */
  predicate FirstSeenOrder<T, K(==)>(r: seq<T>, s: seq<T>, key: T -> K) {
    forall i, j :: 0 <= i < j < |r| ==>
      key(r[i]) in KeysOf(s, key) && key(r[j]) in KeysOf(s, key) &&
      FirstIndex(s, key, key(r[i])) < FirstIndex(s, key, key(r[j]))
  }

  /** Kept elements appear in the order in which their keys were first seen. */
  lemma {:induction false} DedupOrder<T, K>(s: seq<T>, key: T -> K)
    ensures FirstSeenOrder(Dedup(s, key), s, key)
    decreases |s|
  {
    DedupKeys(s, key);
    if s != [] {
      var p := s[..|s| - 1];
      var r := Dedup(p, key);
      DedupOrder(p, key);
      DedupKeys(p, key);
      var d := Dedup(s, key);
      forall i, j | 0 <= i < j < |d|
        ensures key(d[i]) in KeysOf(s, key) && key(d[j]) in KeysOf(s, key)
        ensures FirstIndex(s, key, key(d[i])) < FirstIndex(s, key, key(d[j]))
      {
        assert key(d[i]) in KeysOf(d, key) && key(d[j]) in KeysOf(d, key);
        assert d[i] == r[i];
        if j < |r| {
          assert d[j] == r[j];
        }
      }
    }
  }

  /** Dedup over one more element: the element is kept exactly when its key
      is new. */
  lemma KeysOfSnoc<T, K>(s: seq<T>, x: T, key: T -> K)
    ensures KeysOf(s + [x], key) == KeysOf(s, key) + {key(x)}
  {
    assert (s + [x])[..|s|] == s;
  }

  lemma DedupSnoc<T, K>(s: seq<T>, x: T, key: T -> K)
    ensures Dedup(s + [x], key) ==
      if key(x) in KeysOf(Dedup(s, key), key) then Dedup(s, key) else Dedup(s, key) + [x]
  {
    assert (s + [x])[..|s|] == s;
  }

  /** The list comprehension [f(x) for x in s]. */
  function Map<A, B>(f: A -> B, s: seq<A>): (r: seq<B>)
    ensures |r| == |s|
  {
    if s == [] then [] else Map(f, s[..|s| - 1]) + [f(s[|s| - 1])]
  }

  /** Element i of the mapped list is f of element i. */
  lemma {:induction false} MapAt<A, B>(f: A -> B, s: seq<A>, i: nat)
    requires i < |s|
    ensures Map(f, s)[i] == f(s[i])
    decreases |s|
  {
    if i < |s| - 1 {
      MapAt(f, s[..|s| - 1], i);
    }
  }

  /** Mapping distributes over concatenation. */
  lemma {:induction false} MapConcat<A, B>(f: A -> B, a: seq<A>, b: seq<A>)
    ensures Map(f, a + b) == Map(f, a) + Map(f, b)
    decreases |b|
  {
    if b == [] {
      assert a + b == a;
    } else {
      var b' := b[..|b| - 1];
      assert (a + b)[..|a + b| - 1] == a + b';
      MapConcat(f, a, b');
    }
  }

  /** A prefix extended by the next element is the next prefix. */
  lemma TakeSnoc<A>(s: seq<A>, i: nat)
    requires i < |s|
    ensures s[..i] + [s[i]] == s[..i + 1]
  {
  }

  /** Mapping a list extended by one element. */
  lemma MapSnoc<A, B>(f: A -> B, s: seq<A>, x: A)
    ensures Map(f, s + [x]) == Map(f, s) + [f(x)]
  {
    assert (s + [x])[..|s + [x]| - 1] == s;
  }
}
