/** List operations the pages build from `filter` and spread:
    order-preserving filtering and the checkbox toggle of an option list. */
module Lists {

  /** `r` is `s` with some elements left out, the rest in order. */
  predicate IsSubsequence<T(==)>(r: seq<T>, s: seq<T>)
    decreases |s|
  {
    if s == [] then r == []
    else (r != [] && r[0] == s[0] && IsSubsequence(r[1..], s[1..])) || IsSubsequence(r, s[1..])
  }

  /** JavaScript `s.filter(p)`: the elements satisfying `p`, in order. */
  function Filter<T(!new)>(s: seq<T>, p: T -> bool): (r: seq<T>)
    ensures |r| <= |s|
    ensures forall x :: x in r <==> x in s && p(x)
    ensures forall x :: x in s && p(x) ==> multiset(r)[x] == multiset(s)[x]
  {
    if s == [] then []
    else
      var rest := Filter(s[1..], p);
      assert s == [s[0]] + s[1..];
      if p(s[0]) then [s[0]] + rest else rest
  }

  lemma {:induction false} FilterIsSubsequence<T(!new)>(s: seq<T>, p: T -> bool)
    ensures IsSubsequence(Filter(s, p), s)
  {
    if s != [] {
      FilterIsSubsequence(s[1..], p);
    }
  }

  lemma {:induction false} FilterAppend<T(!new)>(a: seq<T>, b: seq<T>, p: T -> bool)
    ensures Filter(a + b, p) == Filter(a, p) + Filter(b, p)
  {
    if a == [] {
      assert a + b == b;
    } else {
      var ab := a + b;
      assert ab[0] == a[0] && ab[1..] == a[1..] + b;
      FilterAppend(a[1..], b, p);
      if p(a[0]) {
        calc {
          Filter(ab, p);
          [a[0]] + Filter(a[1..] + b, p);
          [a[0]] + (Filter(a[1..], p) + Filter(b, p));
          ([a[0]] + Filter(a[1..], p)) + Filter(b, p);
        }
      } else {
        assert Filter(ab, p) == Filter(a[1..] + b, p);
      }
    }
  }

  lemma {:induction false} FilterAll<T(!new)>(s: seq<T>, p: T -> bool)
    requires forall x :: x in s ==> p(x)
    ensures Filter(s, p) == s
  {
    if s != [] {
      FilterAll(s[1..], p);
    }
  }

  /** Filtering keeps every element exactly when every element passes. */
  lemma {:induction false} FilterKeepsAllIff<T(!new)>(s: seq<T>, p: T -> bool)
    ensures |Filter(s, p)| == |s| <==> forall x :: x in s ==> p(x)
  {
    if s != [] {
      var t := s[1..];
      FilterKeepsAllIff(t, p);
      assert s == [s[0]] + t;
      assert (forall x :: x in s ==> p(x)) <==> p(s[0]) && (forall x :: x in t ==> p(x));
      if p(s[0]) {
        assert Filter(s, p) == [s[0]] + Filter(t, p);
      } else {
        assert Filter(s, p) == Filter(t, p);
      }
    }
  }

  /** `s.filter(e => e !== x)`. */
  function Without<T(==,!new)>(s: seq<T>, x: T): (r: seq<T>) {
    Filter(s, (e: T) => e != x)
  }

  /** The checkbox handler of an option list: checking appends the option
      at the end, unchecking removes every occurrence of it. */
  function Toggle<T(==,!new)>(s: seq<T>, x: T, checked: bool): (r: seq<T>)
    ensures checked ==> r == s + [x]
    ensures !checked ==> x !in r && IsSubsequence(r, s)
    ensures !checked ==> forall y :: y != x ==> multiset(r)[y] == multiset(s)[y]
  {
    if checked then s + [x]
    else
      FilterIsSubsequence(s, (e: T) => e != x);
      Without(s, x)
  }

  /** Checking an option that was not selected and then unchecking it
      restores the original list. */
  lemma ToggleRoundTrip<T(!new)>(s: seq<T>, x: T)
    requires x !in s
    ensures Toggle(Toggle(s, x, true), x, false) == s
  {
    var p := (e: T) => e != x;
    FilterAppend(s, [x], p);
    FilterAll(s, p);
    assert Filter([x], p) == [];
  }

  // ----- Stable sort by an integer key -----

  /** Every element's key is at least the key before it. */
  predicate SortedBy<T>(s: seq<T>, key: T -> int) {
    forall i :: 0 < i < |s| ==> key(s[i - 1]) <= key(s[i])
  }

  /** JavaScript `s.map(f)`. */
  function MapEach<T, U>(s: seq<T>, f: T -> U): (r: seq<U>)
    ensures |r| == |s|
    ensures forall i :: 0 <= i < |r| ==> r[i] == f(s[i])
  {
    if s == [] then [] else [f(s[0])] + MapEach(s[1..], f)
  }

  lemma {:induction false} MapEachAppend<T, U>(a: seq<T>, b: seq<T>, f: T -> U)
    ensures MapEach(a + b, f) == MapEach(a, f) + MapEach(b, f)
    decreases |a|
  {
    if a == [] {
      assert a + b == b;
    } else {
      assert (a + b)[0] == a[0] && (a + b)[1..] == a[1..] + b;
      MapEachAppend(a[1..], b, f);
    }
  }

  lemma SplitAt<T>(s: seq<T>, k: int)
    requires 0 <= k < |s|
    ensures s == s[..k] + ([s[k]] + s[k + 1..])
  {
  }

  lemma RemoveAt<T>(s: seq<T>, k: int)
    requires 0 <= k < |s|
    ensures multiset(s) == multiset([s[k]]) + multiset(s[..k] + s[k + 1..])
  {
    assert s == s[..k] + [s[k]] + s[k + 1..];
  }

  lemma CancelOne<T>(x: T, m1: multiset<T>, m2: multiset<T>)
    requires multiset([x]) + m1 == multiset([x]) + m2
    ensures m1 == m2
  {
    forall y ensures m1[y] == m2[y] {
      assert (multiset([x]) + m1)[y] == (multiset([x]) + m2)[y];
    }
  }

  /** Taking an element out before mapping takes its image out after. */
  lemma MapEachRemoveAt<T, U>(b: seq<T>, k: int, f: T -> U)
    requires 0 <= k < |b|
    ensures multiset(MapEach(b, f)) == multiset([f(b[k])]) + multiset(MapEach(b[..k] + b[k + 1..], f))
  {
    var lo, hi := MapEach(b[..k], f), MapEach(b[k + 1..], f);
    SplitAt(b, k);
    MapEachAppend(b[..k], [b[k]] + b[k + 1..], f);
    MapEachAppend([b[k]], b[k + 1..], f);
    MapEachAppend(b[..k], b[k + 1..], f);
    assert MapEach([b[k]], f) == [f(b[k])];
    calc {
      multiset(MapEach(b, f));
      multiset(lo + ([f(b[k])] + hi));
      multiset(lo) + (multiset([f(b[k])]) + multiset(hi));
      multiset([f(b[k])]) + (multiset(lo) + multiset(hi));
      multiset([f(b[k])]) + multiset(lo + hi);
      multiset([f(b[k])]) + multiset(MapEach(b[..k] + b[k + 1..], f));
    }
  }

  /** Mapping two permutations of a list gives two permutations of the
      mapped list. */
  lemma {:induction false} MapEachPermutes<T, U>(a: seq<T>, b: seq<T>, f: T -> U)
    requires multiset(a) == multiset(b)
    ensures multiset(MapEach(a, f)) == multiset(MapEach(b, f))
    decreases |a|
  {
    if a == [] {
      assert |multiset(b)| == 0;
    } else {
      var x := a[0];
      assert x in multiset(b);
      var k :| 0 <= k < |b| && b[k] == x;
      var rest := b[..k] + b[k + 1..];
      RemoveAt(b, k);
      assert a == [x] + a[1..];
      CancelOne(x, multiset(a[1..]), multiset(rest));
      MapEachPermutes(a[1..], rest, f);
      MapEachRemoveAt(b, k, f);
      assert MapEach(a, f) == [f(x)] + MapEach(a[1..], f);
    }
  }

  /** Puts `x` before the first element whose key is not smaller. */
  function InsertByKey<T>(x: T, s: seq<T>, key: T -> int): (r: seq<T>)
    ensures multiset(r) == multiset(s) + multiset{x}
    ensures |r| == |s| + 1
    ensures r[0] == x || (|s| > 0 && r[0] == s[0])
    ensures SortedBy(s, key) ==> SortedBy(r, key)
  {
    if s == [] || key(x) <= key(s[0]) then [x] + s
    else
      assert s == [s[0]] + s[1..];
      [s[0]] + InsertByKey(x, s[1..], key)
  }

  /** `s.sort((a, b) => key(a) - key(b))`: JavaScript's sort is stable,
      and this is an insertion sort, which is too. */
  function SortByKey<T>(s: seq<T>, key: T -> int): (r: seq<T>)
    ensures multiset(r) == multiset(s)
    ensures |r| == |s|
    ensures SortedBy(r, key)
  {
    if s == [] then []
    else
      assert s == [s[0]] + s[1..];
      InsertByKey(s[0], SortByKey(s[1..], key), key)
  }

  /** A list already in key order is left as it is. */
  lemma {:induction false} SortSortedIsIdentity<T>(s: seq<T>, key: T -> int)
    requires SortedBy(s, key)
    ensures SortByKey(s, key) == s
  {
    if s != [] {
      var t := s[1..];
      assert SortedBy(t, key) by {
        forall i | 0 < i < |t| ensures key(t[i - 1]) <= key(t[i]) {
          assert t[i - 1] == s[i] && t[i] == s[i + 1];
        }
      }
      SortSortedIsIdentity(t, key);
      assert s == [s[0]] + t;
      if t != [] {
        assert key(s[0]) <= key(t[0]) by {
          assert s[1] == t[0];
        }
      }
    }
  }

  /** The elements whose key is `k`. */
  function KeyIs<T>(key: T -> int, k: int): T -> bool {
    e => key(e) == k
  }

  lemma {:induction false} InsertKeepsKeyClass<T(!new)>(x: T, s: seq<T>, key: T -> int, k: int)
    ensures Filter(InsertByKey(x, s, key), KeyIs(key, k))
         == (if key(x) == k then [x] + Filter(s, KeyIs(key, k)) else Filter(s, KeyIs(key, k)))
  {
    var r := InsertByKey(x, s, key);
    if s == [] || key(x) <= key(s[0]) {
      assert r[0] == x && r[1..] == s;
    } else {
      InsertKeepsKeyClass(x, s[1..], key, k);
      assert r[0] == s[0] && r[1..] == InsertByKey(x, s[1..], key);
    }
  }

  /** Stability: the elements with any one key keep their relative order. */
  lemma {:induction false} SortIsStable<T(!new)>(s: seq<T>, key: T -> int, k: int)
    ensures Filter(SortByKey(s, key), KeyIs(key, k)) == Filter(s, KeyIs(key, k))
  {
    if s != [] {
      SortIsStable(s[1..], key, k);
      InsertKeepsKeyClass(s[0], SortByKey(s[1..], key), key, k);
    }
  }
}
