/** The array methods the claim code calls on records: `findIndex`, `find`,
    `filter`, `some` and a filtered `length`. */
module Seqs {
  import opened Js

  /** `s.findIndex(p)`: the first index whose element satisfies `p`, or -1. */
  function FirstIndex<T>(s: seq<T>, p: T -> bool): (r: int)
    ensures -1 <= r < |s|
    ensures r >= 0 ==> p(s[r]) && forall j :: 0 <= j < r ==> !p(s[j])
    ensures r < 0 ==> forall j :: 0 <= j < |s| ==> !p(s[j])
  {
    if s == [] then -1
    else if p(s[0]) then 0
    else
      var k := FirstIndex(s[1..], p);
      if k < 0 then -1 else k + 1
  }

  /** `s.find(p)`: the element at `FirstIndex(s, p)`, or `undefined`. */
  function Find<T>(s: seq<T>, p: T -> bool): Option<T>
  {
    var k := FirstIndex(s, p);
    if k < 0 then None else Some(s[k])
  }

  /** `find` yields `undefined` exactly when no element satisfies `p`, and
      otherwise an element satisfying `p` with none before it. */
  lemma FindSpec<T>(s: seq<T>, p: T -> bool)
    ensures Find(s, p).None? <==> forall j :: 0 <= j < |s| ==> !p(s[j])
    ensures Find(s, p).Some? ==> exists k :: 0 <= k < |s| && s[k] == Find(s, p).value && p(s[k]) && forall j :: 0 <= j < k ==> !p(s[j])
  {
    var k := FirstIndex(s, p);
    if k >= 0 {
      assert s[k] == Find(s, p).value && p(s[k]) && forall j :: 0 <= j < k ==> !p(s[j]);
    }
  }

  /** `s.some(p)`. */
  predicate Any<T>(s: seq<T>, p: T -> bool)
  {
    exists j :: 0 <= j < |s| && p(s[j])
  }

  /** `s.filter(p)`, order kept. */
  function Filter<T>(s: seq<T>, p: T -> bool): (r: seq<T>)
    ensures |r| <= |s|
    ensures forall j :: 0 <= j < |r| ==> p(r[j])
    ensures forall j :: 0 <= j < |r| ==> r[j] in s
    ensures forall j :: 0 <= j < |s| && p(s[j]) ==> s[j] in r
  {
    if s == [] then []
    else if p(s[0]) then [s[0]] + Filter(s[1..], p)
    else Filter(s[1..], p)
  }

  /** Filtering commutes with appending one element. */
  lemma {:induction false} FilterSnoc<T>(s: seq<T>, x: T, p: T -> bool)
    ensures Filter(s + [x], p) == Filter(s, p) + (if p(x) then [x] else [])
  {
    if s != [] {
      assert (s + [x])[1..] == s[1..] + [x];
      FilterSnoc(s[1..], x, p);
    }
  }

  /** Filtering distributes over concatenation. */
  lemma {:induction false} FilterAppend<T>(a: seq<T>, b: seq<T>, p: T -> bool)
    ensures Filter(a + b, p) == Filter(a, p) + Filter(b, p)
  {
    if a != [] {
      assert (a + b)[0] == a[0] && (a + b)[1..] == a[1..] + b;
      FilterAppend(a[1..], b, p);
      if p(a[0]) {
        assert Filter(a + b, p) == [a[0]] + Filter(a[1..] + b, p);
      }
    } else {
      assert a + b == b;
    }
  }

  /** All elements satisfy `p`, so everything is kept. */
  lemma {:induction false} FilterAll<T>(s: seq<T>, p: T -> bool)
    requires forall j :: 0 <= j < |s| ==> p(s[j])
    ensures Filter(s, p) == s
  {
    if s != [] {
      assert p(s[0]);
      FilterAll(s[1..], p);
    }
  }

  /** All elements fail `p`, so nothing is kept. */
  lemma {:induction false} FilterNone<T>(s: seq<T>, p: T -> bool)
    requires forall j :: 0 <= j < |s| ==> !p(s[j])
    ensures Filter(s, p) == []
  {
    if s != [] {
      assert !p(s[0]);
      FilterNone(s[1..], p);
    }
  }

  /** Filtering depends only on the predicate's values on the elements. */
  lemma {:induction false} FilterSame<T>(s: seq<T>, p: T -> bool, q: T -> bool)
    requires forall j :: 0 <= j < |s| ==> p(s[j]) == q(s[j])
    ensures Filter(s, p) == Filter(s, q)
  {
    if s != [] {
      assert p(s[0]) == q(s[0]);
      FilterSame(s[1..], p, q);
    }
  }

  /** Two sequences whose elements agree position by position on `p` and `q`
      have their first match at the same index. */
  lemma {:induction false} FirstIndexAlike<T, U>(s: seq<T>, t: seq<U>, p: T -> bool, q: U -> bool)
    requires |s| == |t| && forall j :: 0 <= j < |s| ==> p(s[j]) == q(t[j])
    ensures FirstIndex(s, p) == FirstIndex(t, q)
  {
    if s != [] {
      assert p(s[0]) == q(t[0]);
      FirstIndexAlike(s[1..], t[1..], p, q);
    }
  }

  /** Appending an element that satisfies `p` leaves the first match where it
      was, or makes the new element the first match. */
  lemma {:induction false} FirstIndexSnoc<T>(s: seq<T>, x: T, p: T -> bool)
    requires p(x)
    ensures FirstIndex(s + [x], p) == if FirstIndex(s, p) < 0 then |s| else FirstIndex(s, p)
  {
    if s != [] {
      assert (s + [x])[0] == s[0];
      assert (s + [x])[1..] == s[1..] + [x];
      FirstIndexSnoc(s[1..], x, p);
    }
  }

  /** ... and keep the same number of elements when filtered. */
  lemma {:induction false} FilterAlike<T, U>(s: seq<T>, t: seq<U>, p: T -> bool, q: U -> bool)
    requires |s| == |t| && forall j :: 0 <= j < |s| ==> p(s[j]) == q(t[j])
    ensures |Filter(s, p)| == |Filter(t, q)|
  {
    if s != [] {
      assert p(s[0]) == q(t[0]);
      FilterAlike(s[1..], t[1..], p, q);
    }
  }

  /** ... and, when they are also related position by position, filtering
      keeps them related position by position. */
  lemma {:induction false} FilterRelated<T, U>(s: seq<T>, t: seq<U>, p: T -> bool, q: U -> bool, rel: (T, U) -> bool)
    requires |s| == |t| && forall j :: 0 <= j < |s| ==> p(s[j]) == q(t[j]) && rel(s[j], t[j])
    ensures |Filter(s, p)| == |Filter(t, q)|
    ensures forall j :: 0 <= j < |Filter(s, p)| ==> rel(Filter(s, p)[j], Filter(t, q)[j])
  {
    if s != [] {
      assert p(s[0]) == q(t[0]) && rel(s[0], t[0]);
      FilterRelated(s[1..], t[1..], p, q, rel);
      var fs, ft := Filter(s[1..], p), Filter(t[1..], q);
      if p(s[0]) {
        assert Filter(s, p) == [s[0]] + fs && Filter(t, q) == [t[0]] + ft;
        ConsRelated(s[0], t[0], fs, ft, rel);
      }
    }
  }

  /** Related heads in front of sequences related position by position. */
  lemma ConsRelated<T, U>(x: T, y: U, a: seq<T>, b: seq<U>, rel: (T, U) -> bool)
    requires rel(x, y) && |a| == |b| && forall j :: 0 <= j < |a| ==> rel(a[j], b[j])
    ensures forall j :: 0 <= j < |[x] + a| ==> rel(([x] + a)[j], ([y] + b)[j])
  {
    forall j | 0 <= j < |[x] + a| ensures rel(([x] + a)[j], ([y] + b)[j]) {
      if j > 0 {
        assert ([x] + a)[j] == a[j - 1] && ([y] + b)[j] == b[j - 1];
      }
    }
  }

  /** `s.filter(p).length`. */
  function Count<T>(s: seq<T>, p: T -> bool): (n: nat)
    ensures n <= |s|
  {
    |Filter(s, p)|
  }

  /** The array a loop builds by pushing `f(s[i], i)` for each element in turn. */
  function MapIndexed<A, B>(s: seq<A>, f: (A, nat) -> B): (r: seq<B>)
    ensures |r| == |s|
  {
    if s == [] then [] else MapIndexed(s[..|s| - 1], f) + [f(s[|s| - 1], |s| - 1)]
  }

  /** Element `i` of the result is `f` applied to element `i` and to `i`. */
  lemma {:induction false} MapIndexedAt<A, B>(s: seq<A>, f: (A, nat) -> B)
    ensures forall i :: 0 <= i < |s| ==> MapIndexed(s, f)[i] == f(s[i], i)
  {
    if s != [] {
      var n := |s| - 1;
      MapIndexedAt(s[..n], f);
      forall i | 0 <= i < n ensures MapIndexed(s, f)[i] == f(s[i], i) {
        assert s[..n][i] == s[i];
      }
    }
  }

  /** One more push. */
  lemma MapIndexedSnoc<A, B>(s: seq<A>, i: nat, f: (A, nat) -> B)
    requires i < |s|
    ensures MapIndexed(s[..i + 1], f) == MapIndexed(s[..i], f) + [f(s[i], i)]
  {
    assert s[..i + 1][..i] == s[..i];
  }

  /** A `Map` with string keys, as its entries in insertion order. */
  predicate HasKey<V>(m: seq<(string, V)>, k: string)
  {
    exists i :: 0 <= i < |m| && m[i].0 == k
  }

  /** `Array.from(m.values())`. */
  function Values<V>(m: seq<(string, V)>): (r: seq<V>)
    ensures |r| == |m| && forall i :: 0 <= i < |m| ==> r[i] == m[i].1
  {
    seq(|m|, i requires 0 <= i < |m| => m[i].1)
  }

  /** The map a loop fills with `if (k && !m.has(k)) m.set(k, make(x, k))`,
      where `k` is `key(x)`, for each element `x` in turn; `undefined` keys
      are skipped. */
  function FirstPerKey<A, V>(s: seq<A>, key: A -> Option<string>, make: (A, string) -> V): seq<(string, V)>
  {
    if s == [] then []
    else
      var m := FirstPerKey(s[..|s| - 1], key, make);
      var x := s[|s| - 1];
      if key(x).Some? && !HasKey(m, key(x).value) then m + [(key(x).value, make(x, key(x).value))] else m
  }

  /** Element `i` is the first of `s` whose key is `k`. */
  predicate FirstWithKey<A>(s: seq<A>, key: A -> Option<string>, i: int, k: string)
  {
    0 <= i < |s| && key(s[i]) == Some(k) && forall j :: 0 <= j < i ==> key(s[j]) != Some(k)
  }

  /** No key is entered twice. */
  predicate UniqueKeys<V>(m: seq<(string, V)>)
  {
    forall i, j :: 0 <= i < j < |m| ==> m[i].0 != m[j].0
  }

  /** Every entry was made from the first element of `s` carrying its key. */
  ghost predicate MadeFromFirst<A, V>(s: seq<A>, key: A -> Option<string>, make: (A, string) -> V, m: seq<(string, V)>)
  {
    forall k :: 0 <= k < |m| ==> exists i :: 0 <= i < |s| && FirstWithKey(s, key, i, m[k].0) && m[k].1 == make(s[i], m[k].0)
  }

  lemma {:induction false} FirstPerKeyUnique<A, V>(s: seq<A>, key: A -> Option<string>, make: (A, string) -> V)
    ensures UniqueKeys(FirstPerKey(s, key, make))
  {
    if s != [] {
      var init := FirstPerKey(s[..|s| - 1], key, make);
      FirstPerKeyUnique(s[..|s| - 1], key, make);
      var x := s[|s| - 1];
      if key(x).Some? && !HasKey(init, key(x).value) {
        var m := init + [(key(x).value, make(x, key(x).value))];
        assert forall i :: 0 <= i < |init| ==> m[i] == init[i] && init[i].0 != key(x).value;
      }
    }
  }

  /** Every key that occurs is entered. */
  lemma {:induction false} FirstPerKeyCover<A, V>(s: seq<A>, key: A -> Option<string>, make: (A, string) -> V)
    ensures forall i :: 0 <= i < |s| && key(s[i]).Some? ==> HasKey(FirstPerKey(s, key, make), key(s[i]).value)
  {
    if s != [] {
      var n := |s| - 1;
      var init := FirstPerKey(s[..n], key, make);
      var m := FirstPerKey(s, key, make);
      FirstPerKeyCover(s[..n], key, make);
      assert m[..|init|] == init;
      forall i | 0 <= i < |s| && key(s[i]).Some? ensures HasKey(m, key(s[i]).value) {
        var k := key(s[i]).value;
        if i < n {
          assert s[..n][i] == s[i];
          var j :| 0 <= j < |init| && init[j].0 == k;
          assert m[j] == init[j];
        } else {
          assert HasKey(init, k) || m[|init|].0 == k;
        }
      }
    }
  }

  /** Every entry was made from the first element carrying its key: later
      elements with the same key change nothing. */
  lemma {:induction false} FirstPerKeyFirstWins<A, V>(s: seq<A>, key: A -> Option<string>, make: (A, string) -> V)
    ensures MadeFromFirst(s, key, make, FirstPerKey(s, key, make))
  {
    if s != [] {
      var n := |s| - 1;
      var init := FirstPerKey(s[..n], key, make);
      var m := FirstPerKey(s, key, make);
      FirstPerKeyFirstWins(s[..n], key, make);
      FirstPerKeyCover(s[..n], key, make);
      forall k | 0 <= k < |m| ensures exists i :: FirstWithKey(s, key, i, m[k].0) && m[k].1 == make(s[i], m[k].0) {
        if k < |init| {
          assert m[k] == init[k];
          var i :| 0 <= i < n && FirstWithKey(s[..n], key, i, init[k].0) && init[k].1 == make(s[..n][i], init[k].0);
          assert forall j :: 0 <= j <= i ==> s[..n][j] == s[j];
          assert FirstWithKey(s, key, i, m[k].0);
        } else {
          var id := key(s[n]).value;
          forall j | 0 <= j < n ensures key(s[j]) != Some(id) {
            assert s[..n][j] == s[j];
          }
          assert FirstWithKey(s, key, n, id);
        }
      }
    }
  }

  /** One more element. */
  lemma FirstPerKeySnoc<A, V>(s: seq<A>, i: nat, key: A -> Option<string>, make: (A, string) -> V)
    requires i < |s|
    ensures var m := FirstPerKey(s[..i], key, make);
      FirstPerKey(s[..i + 1], key, make) ==
        if key(s[i]).Some? && !HasKey(m, key(s[i]).value) then m + [(key(s[i]).value, make(s[i], key(s[i]).value))] else m
  {
    assert s[..i + 1][..i] == s[..i];
  }
}
