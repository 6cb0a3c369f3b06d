/** The lexicographic order on strings and sorting by a string key, as Go's
    `<` on strings, `sort.Strings` and `sort.Slice` provide them.
 */
module Strings {
  predicate Less(a: string, b: string) {
    if b == "" then false
    else if a == "" then true
    else if a[0] != b[0] then a[0] < b[0]
    else Less(a[1..], b[1..])
  }

  /** Exactly one of a < b, a == b and b < a holds. */
  lemma {:induction false} LessTotal(a: string, b: string)
    ensures a == b ==> !Less(a, b)
    ensures Less(a, b) ==> !Less(b, a)
    ensures Less(a, b) || a == b || Less(b, a)
  {
    if a != "" && b != "" && a[0] == b[0] {
      LessTotal(a[1..], b[1..]);
      assert a == [a[0]] + a[1..] && b == [b[0]] + b[1..];
    }
  }

  lemma {:induction false} LessTransitive(a: string, b: string, c: string)
    requires Less(a, b) && Less(b, c)
    ensures Less(a, c)
  {
    if a != "" && a[0] == b[0] == c[0] {
      LessTransitive(a[1..], b[1..], c[1..]);
    }
  }

  /** a and b first differ at k, and a has the smaller character there. */
  ghost predicate SmallerAt(a: string, b: string, k: int) {
    0 <= k < |a| && k < |b| && a[..k] == b[..k] && a[k] < b[k]
  }

  lemma SmallerAtShifts(a: string, b: string, k: nat)
    requires a != "" && b != "" && a[0] == b[0]
    ensures SmallerAt(a, b, k + 1) <==> SmallerAt(a[1..], b[1..], k)
  {
    if k < |a| - 1 && k < |b| - 1 {
      assert a[..k + 1] == [a[0]] + a[1..][..k] && b[..k + 1] == [b[0]] + b[1..][..k];
    }
  }

  /** The order is lexicographic: a proper prefix comes first, and otherwise the
      first difference decides. */
  lemma {:induction false} LessIsLexicographic(a: string, b: string)
    ensures Less(a, b) <==> a < b || exists k :: SmallerAt(a, b, k)
  {
    if a != "" && b != "" && a[0] == b[0] {
      LessIsLexicographic(a[1..], b[1..]);
      assert a < b <==> a[1..] < b[1..] by {
        assert a == [a[0]] + a[1..] && b == [b[0]] + b[1..];
      }
      if k :| SmallerAt(a[1..], b[1..], k) {
        SmallerAtShifts(a, b, k);
      }
      if k :| SmallerAt(a, b, k) {
        SmallerAtShifts(a, b, k - 1);
      }
    } else if a != "" && b != "" && a[0] < b[0] {
      assert SmallerAt(a, b, 0);
    } else if a != "" && b != "" {
      assert forall k :: 0 < k < |a| && k < |b| ==> a[..k][0] == a[0] && b[..k][0] == b[0];
    }
  }

  predicate HasPrefix(s: string, prefix: string) {
    prefix <= s
  }

  function TrimPrefix(s: string, prefix: string): string {
    if HasPrefix(s, prefix) then s[|prefix|..] else s
  }

  /** Trimming takes one copy of the prefix off, and nothing else. */
  lemma TrimPrefixMeans(s: string, prefix: string)
    ensures TrimPrefix(prefix + s, prefix) == s
    ensures TrimPrefix(s, prefix) != s ==> s == prefix + TrimPrefix(s, prefix)
    ensures TrimPrefix(s, prefix) == s <==> prefix == "" || forall r :: s != prefix + r
  {
    assert HasPrefix(prefix + s, prefix);
    if HasPrefix(s, prefix) {
      assert s == prefix + s[|prefix|..];
    }
  }

  predicate AtMost(a: string, b: string) {
    !Less(b, a)
  }

  lemma AtMostTransitive(a: string, b: string, c: string)
    requires AtMost(a, b) && AtMost(b, c)
    ensures AtMost(a, c)
  {
    LessTotal(a, b);
    LessTotal(b, c);
    LessTotal(a, c);
    if Less(c, a) && a != b && b != c {
      LessTransitive(a, b, c);
    }
  }

  ghost predicate SortedByKey<T>(key: T -> string, s: seq<T>) {
    forall i, j :: 0 <= i < j < |s| ==> AtMost(key(s[i]), key(s[j]))
  }

  ghost predicate StrictlySorted(s: seq<string>) {
    forall i, j {:trigger Less(s[i], s[j])} :: 0 <= i < j < |s| ==> Less(s[i], s[j])
  }

  ghost predicate Ascending(idx: seq<nat>) {
    forall m, n :: 0 <= m < n < |idx| ==> idx[m] < idx[n]
  }

  ghost function Elems<T>(s: seq<T>): set<T> {
    set x | x in s
  }

  /** A strictly sorted sequence is determined by its elements. */
  lemma {:induction false} StrictlySortedUnique(s: seq<string>, t: seq<string>)
    requires StrictlySorted(s) && StrictlySorted(t) && Elems(s) == Elems(t)
    ensures s == t
  {
    if s == [] || t == [] {
      NoElems(s);
      NoElems(t);
    } else {
      HeadIsLeast(s, t);
      HeadIsLeast(t, s);
      LessTotal(s[0], t[0]);
      forall x
        ensures x in s[1..] <==> x in t[1..]
      {
        TailDropsHead(s, x);
        TailDropsHead(t, x);
        assert x in Elems(s) <==> x in Elems(t);
      }
      StrictlySortedUnique(s[1..], t[1..]);
      assert s == [s[0]] + s[1..] && t == [t[0]] + t[1..];
    }
  }

  lemma NoElems(s: seq<string>)
    ensures s == [] <==> Elems(s) == {}
  {
    assert s != [] ==> s[0] in Elems(s);
  }

  lemma HeadIsLeast(s: seq<string>, t: seq<string>)
    requires StrictlySorted(s) && Elems(s) == Elems(t) && s != [] && t != []
    ensures AtMost(s[0], t[0])
  {
    assert t[0] in Elems(t);
    var i :| 0 <= i < |s| && s[i] == t[0];
    LessTotal(s[0], s[i]);
  }

  lemma TailDropsHead(s: seq<string>, x: string)
    requires StrictlySorted(s) && s != []
    ensures x in s[1..] <==> x in s && x != s[0]
  {
    LessTotal(s[0], s[0]);
    assert s == [s[0]] + s[1..];
  }

  function Insert<T>(key: T -> string, x: T, s: seq<T>): (r: seq<T>)
    ensures multiset(r) == multiset(s) + multiset{x}
  {
    if s == [] || AtMost(key(x), key(s[0])) then [x] + s
    else
      assert s == [s[0]] + s[1..];
      [s[0]] + Insert(key, x, s[1..])
  }

  lemma {:induction false} InsertKeepsSorted<T>(key: T -> string, x: T, s: seq<T>)
    requires SortedByKey(key, s)
    ensures SortedByKey(key, Insert(key, x, s))
  {
    if s == [] {
    } else if AtMost(key(x), key(s[0])) {
      forall j | 0 <= j < |s|
        ensures AtMost(key(x), key(s[j]))
      {
        if j > 0 { AtMostTransitive(key(x), key(s[0]), key(s[j])); }
      }
    } else {
      var rest := Insert(key, x, s[1..]);
      InsertKeepsSorted(key, x, s[1..]);
      LessTotal(key(s[0]), key(x));
      forall j | 0 <= j < |rest|
        ensures AtMost(key(s[0]), key(rest[j]))
      {
        assert rest[j] in multiset(rest);
        assert rest[j] == x || rest[j] in s[1..];
      }
    }
  }

  /** A permutation of s in key order. Only the contract is known to callers:
      the order of equal keys is not part of it. */
  method SortByKey<T>(key: T -> string, s: seq<T>) returns (r: seq<T>)
    ensures multiset(r) == multiset(s)
    ensures SortedByKey(key, r)
  {
    r := [];
    for i := 0 to |s|
      invariant multiset(r) == multiset(s[..i])
      invariant SortedByKey(key, r)
    {
      InsertKeepsSorted(key, s[i], r);
      r := Insert(key, s[i], r);
      assert s[..i + 1] == s[..i] + [s[i]];
    }
    assert s[..|s|] == s;
  }

  ghost predicate Distinct<T>(s: seq<T>) {
    forall i, j :: 0 <= i < j < |s| ==> s[i] != s[j]
  }

  lemma {:induction false} DistinctCounts<T>(s: seq<T>)
    ensures Distinct(s) <==> forall x :: x in s ==> multiset(s)[x] == 1
  {
    if s != [] {
      var t := s[1..];
      assert s == [s[0]] + t;
      assert multiset(s) == multiset{s[0]} + multiset(t);
      DistinctCounts(t);
      if Distinct(s) {
        assert s[0] !in t;
      } else if s[0] !in t {
        assert !Distinct(t);
        var x :| x in t && multiset(t)[x] != 1;
        assert x in s && multiset(s)[x] != 1;
      } else {
        assert multiset(s)[s[0]] > 1;
      }
    }
  }

  /** Sorting distinct strings makes them strictly sorted. */
  lemma SortedDistinctIsStrict(s: seq<string>, r: seq<string>)
    requires Distinct(s) && multiset(r) == multiset(s) && SortedByKey((x: string) => x, r)
    ensures StrictlySorted(r) && Elems(r) == Elems(s)
  {
    DistinctCounts(s);
    forall x
      ensures x in r <==> x in s
    {
      assert x in multiset(r) <==> x in multiset(s);
    }
    DistinctCounts(r);
    forall i, j | 0 <= i < j < |r|
      ensures Less(r[i], r[j])
    {
      LessTotal(r[i], r[j]);
    }
  }
}
