/**
 * Orderings and sorting as Python's `sorted` and `list.sort` provide them:
 * strings compare by code point, tuples lexicographically, and the sort is a
 * stable insertion sort under a caller-supplied "less or equal".
 */
module Order {

  /** Python's `a <= b` on strings: code point by code point, a prefix first. */
  predicate StrLe(a: string, b: string) {
    |a| == 0 || (|b| > 0 && (a[0] < b[0] || (a[0] == b[0] && StrLe(a[1..], b[1..]))))
  }

  /** Python's `a < b` on strings. */
  predicate StrLt(a: string, b: string) {
    StrLe(a, b) && a != b
  }

  lemma {:induction false} StrLeTotal(a: string, b: string)
    ensures StrLe(a, b) || StrLe(b, a)
  {
    if |a| > 0 && |b| > 0 && a[0] == b[0] {
      StrLeTotal(a[1..], b[1..]);
    }
  }

  lemma {:induction false} StrLeTrans(a: string, b: string, c: string)
    requires StrLe(a, b) && StrLe(b, c)
    ensures StrLe(a, c)
  {
    if |a| > 0 && a[0] == b[0] && b[0] == c[0] {
      StrLeTrans(a[1..], b[1..], c[1..]);
    }
  }

  lemma {:induction false} StrLeAntisym(a: string, b: string)
    requires StrLe(a, b) && StrLe(b, a)
    ensures a == b
  {
    if |a| > 0 {
      StrLeAntisym(a[1..], b[1..]);
      assert a == [a[0]] + a[1..] && b == [b[0]] + b[1..];
    }
  }

  lemma StrLeIsTotalPreorder()
    ensures TotalPreorder(StrLe)
  {
    forall a, b ensures StrLe(a, b) || StrLe(b, a) { StrLeTotal(a, b); }
    forall a, b, c | StrLe(a, b) && StrLe(b, c) ensures StrLe(a, c) { StrLeTrans(a, b, c); }
  }

  /** A relation that is total and transitive, as a sort key order is. */
  ghost predicate TotalPreorder<T(!new)>(le: (T, T) -> bool) {
    && (forall a, b :: le(a, b) || le(b, a))
    && (forall a, b, c :: le(a, b) && le(b, c) ==> le(a, c))
  }

  predicate Sorted<T>(xs: seq<T>, le: (T, T) -> bool) {
    forall i, j :: 0 <= i < j < |xs| ==> le(xs[i], xs[j])
  }

  /** A prefix stays a prefix when the list grows. */
  lemma PrefixExtend<T>(x: seq<T>, e: seq<T>, l: seq<T>)
    requires x <= e
    ensures x <= e + l
  {
    assert (e + l)[..|x|] == e[..|x|];
  }

  /** Two ordered lists, each element of the first before each of the second, concatenate in order. */
  lemma SortedConcat<T>(xs: seq<T>, ys: seq<T>, le: (T, T) -> bool)
    requires Sorted(xs, le) && Sorted(ys, le)
    requires forall i, j :: 0 <= i < |xs| && 0 <= j < |ys| ==> le(xs[i], ys[j])
    ensures Sorted(xs + ys, le)
  {
    var r := xs + ys;
    forall i, j | 0 <= i < j < |r| ensures le(r[i], r[j]) {
      if j < |xs| {
        assert r[i] == xs[i] && r[j] == xs[j];
      } else if i >= |xs| {
        assert r[i] == ys[i - |xs|] && r[j] == ys[j - |xs|];
      } else {
        assert r[i] == xs[i] && r[j] == ys[j - |xs|];
      }
    }
  }

  /** Every element is strictly before every later one. */
  predicate StrictlySorted<T>(xs: seq<T>, le: (T, T) -> bool) {
    forall i, j :: 0 <= i < j < |xs| ==> le(xs[i], xs[j]) && !le(xs[j], xs[i])
  }

  /** No two elements at different positions are equivalent under `le`. */
  predicate DistinctUnder<T>(xs: seq<T>, le: (T, T) -> bool) {
    forall i, j :: 0 <= i < j < |xs| ==> !(le(xs[i], xs[j]) && le(xs[j], xs[i]))
  }

  /** `[f(x) for x in xs]` */
  function MapSeq<A, B>(f: A -> B, xs: seq<A>): (r: seq<B>)
    ensures |r| == |xs|
    ensures forall i :: 0 <= i < |xs| ==> r[i] == f(xs[i])
  {
    if xs == [] then [] else MapSeq(f, xs[..|xs| - 1]) + [f(xs[|xs| - 1])]
  }

  /** Insert `x` after every element that is not greater than it (stability). */
  function Insert<T>(x: T, ys: seq<T>, le: (T, T) -> bool): (r: seq<T>)
    ensures multiset(r) == multiset(ys) + multiset{x}
  {
    if ys == [] then [x]
    else
      assert ys == [ys[0]] + ys[1..];
      if le(ys[0], x) then [ys[0]] + Insert(x, ys[1..], le)
      else [x] + ys
  }

  /** `sorted(xs, key=...)`: a stable sort of `xs` under `le`. */
  function SortBy<T>(xs: seq<T>, le: (T, T) -> bool): (r: seq<T>)
    ensures multiset(r) == multiset(xs)
    ensures |r| == |xs|
  {
    assert |xs| == |multiset(xs)|;
    if xs == [] then []
    else
      var init := xs[..|xs| - 1];
      assert xs == init + [xs[|xs| - 1]];
      Insert(xs[|xs| - 1], SortBy(init, le), le)
  }

  lemma InsertMembers<T>(x: T, ys: seq<T>, le: (T, T) -> bool, z: T)
    requires z in Insert(x, ys, le)
    ensures z == x || z in ys
  {
    assert z in multiset(Insert(x, ys, le));
  }

  lemma {:induction false} InsertSorted<T(!new)>(x: T, ys: seq<T>, le: (T, T) -> bool)
    requires TotalPreorder(le) && Sorted(ys, le)
    ensures Sorted(Insert(x, ys, le), le)
  {
    if ys != [] && le(ys[0], x) {
      InsertSorted(x, ys[1..], le);
      var r := Insert(x, ys[1..], le);
      forall j | 0 <= j < |r| ensures le(ys[0], r[j]) {
        InsertMembers(x, ys[1..], le, r[j]);
      }
    }
  }

  /** The result of `SortBy` is in order. */
  lemma {:induction false} SortBySorted<T(!new)>(xs: seq<T>, le: (T, T) -> bool)
    requires TotalPreorder(le)
    ensures Sorted(SortBy(xs, le), le)
  {
    if xs != [] {
      SortBySorted(xs[..|xs| - 1], le);
      InsertSorted(xs[|xs| - 1], SortBy(xs[..|xs| - 1], le), le);
    }
  }

  /** Every element of `zs` is strictly above `y`. */
  predicate StrictlyAbove<T>(y: T, zs: seq<T>, le: (T, T) -> bool) {
    forall j :: 0 <= j < |zs| ==> le(y, zs[j]) && !le(zs[j], y)
  }

  /** Inserting an element strictly above `y` into a list strictly above `y` stays strictly above it. */
  lemma InsertAbove<T>(x: T, zs: seq<T>, le: (T, T) -> bool, y: T)
    requires le(y, x) && !le(x, y) && StrictlyAbove(y, zs, le)
    ensures StrictlyAbove(y, Insert(x, zs, le), le)
  {
    var r := Insert(x, zs, le);
    forall j | 0 <= j < |r| ensures le(y, r[j]) && !le(r[j], y) {
      InsertMembers(x, zs, le, r[j]);
    }
  }

  lemma ConsStrict<T>(y: T, zs: seq<T>, le: (T, T) -> bool)
    requires StrictlySorted(zs, le) && StrictlyAbove(y, zs, le)
    ensures StrictlySorted([y] + zs, le)
  {
    var r := [y] + zs;
    forall i, j | 0 <= i < j < |r| ensures le(r[i], r[j]) && !le(r[j], r[i]) {
      assert r[j] == zs[j - 1];
      if i > 0 {
        assert r[i] == zs[i - 1];
      }
    }
  }

  lemma {:induction false} InsertStrict<T(!new)>(x: T, ys: seq<T>, le: (T, T) -> bool)
    requires TotalPreorder(le) && StrictlySorted(ys, le)
    requires forall k :: 0 <= k < |ys| ==> !(le(x, ys[k]) && le(ys[k], x))
    ensures StrictlySorted(Insert(x, ys, le), le)
  {
    if ys != [] {
      var tail := ys[1..];
      if le(ys[0], x) {
        assert forall k :: 0 <= k < |tail| ==> tail[k] == ys[k + 1];
        InsertStrict(x, tail, le);
        InsertAbove(x, tail, le, ys[0]);
        ConsStrict(ys[0], Insert(x, tail, le), le);
        assert Insert(x, ys, le) == [ys[0]] + Insert(x, tail, le);
      } else {
        ConsStrict(x, ys, le);
        assert Insert(x, ys, le) == [x] + ys;
      }
    }
  }

  /** Sorting elements no two of which are equivalent gives a strictly increasing list. */
  lemma {:induction false} SortByStrict<T(!new)>(xs: seq<T>, le: (T, T) -> bool)
    requires TotalPreorder(le) && DistinctUnder(xs, le)
    ensures StrictlySorted(SortBy(xs, le), le)
  {
    if xs != [] {
      var init := xs[..|xs| - 1];
      var x := xs[|xs| - 1];
      SortByStrict(init, le);
      var s := SortBy(init, le);
      forall m | 0 <= m < |s| ensures !(le(x, s[m]) && le(s[m], x)) {
        assert s[m] in multiset(s);
        var k :| 0 <= k < |init| && init[k] == s[m];
        assert xs[k] == s[m];
      }
      InsertStrict(x, s, le);
    }
  }

  // ---------------------------------------------------------------------
  // sorted(set(xs)) for strings

  /** `list(dict.fromkeys(xs))`: the first occurrence of each element. */
  function Dedup<T(==,!new)>(xs: seq<T>): (r: seq<T>)
    ensures forall x :: x in r <==> x in xs
    ensures forall i, j :: 0 <= i < j < |r| ==> r[i] != r[j]
  {
    if xs == [] then []
    else
      var init := xs[..|xs| - 1];
      assert xs == init + [xs[|xs| - 1]];
      var rest := Dedup(init);
      var x := xs[|xs| - 1];
      if x in rest then rest else rest + [x]
  }

  lemma DedupAppend<T(!new)>(xs: seq<T>, x: T)
    ensures Dedup(xs + [x]) == if x in Dedup(xs) then Dedup(xs) else Dedup(xs) + [x]
  {
    assert (xs + [x])[..|xs|] == xs;
  }

  /** `sorted(set(xs))` for a list of strings. */
  function SortedSet(xs: seq<string>): (r: seq<string>)
    ensures StrictlySorted(r, StrLe)
    ensures forall x :: x in r <==> x in xs
  {
    var d := Dedup(xs);
    StrLeIsTotalPreorder();
    forall i, j | 0 <= i < j < |d| ensures !(StrLe(d[i], d[j]) && StrLe(d[j], d[i])) {
      if StrLe(d[i], d[j]) && StrLe(d[j], d[i]) { StrLeAntisym(d[i], d[j]); }
    }
    SortByStrict(d, StrLe);
    var r := SortBy(d, StrLe);
    assert forall x :: x in r <==> x in multiset(r);
    r
  }

  /** A strictly increasing list of strings has no duplicates. */
  lemma StrictlySortedDistinct(xs: seq<string>)
    requires StrictlySorted(xs, StrLe)
    ensures forall i, j :: 0 <= i < j < |xs| ==> xs[i] != xs[j]
  {
  }
}
