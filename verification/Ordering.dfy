/**
 The byte order Rust compares strings in (for UTF-8 it is the order of the code
 points), key lists kept in that order as a `BTreeMap` keeps them, and sorting.
 */
module Ordering {

  predicate Le(a: string, b: string)
  {
    a == [] || (b != [] && (a[0] < b[0] || (a[0] == b[0] && Le(a[1..], b[1..]))))
  }

  predicate Less(a: string, b: string) {
    a != b && Le(a, b)
  }

  lemma LeReflexive(a: string)
    ensures Le(a, a)
  {}

  lemma LeTotal(a: string, b: string)
    ensures Le(a, b) || Le(b, a)
  {}

  lemma {:induction false} LeAntisymmetric(a: string, b: string)
    requires Le(a, b) && Le(b, a)
    ensures a == b
  {
    if a == [] {
    } else {
      LeAntisymmetric(a[1..], b[1..]);
      assert a == [a[0]] + a[1..] && b == [b[0]] + b[1..];
    }
  }

  lemma {:induction false} LeTransitive(a: string, b: string, c: string)
    requires Le(a, b) && Le(b, c)
    ensures Le(a, c)
  {
    if a == [] || !(a[0] == b[0] == c[0]) {
    } else {
      LeTransitive(a[1..], b[1..], c[1..]);
    }
  }

  ghost predicate Sorted(s: seq<string>) {
    forall i, j | 0 <= i < j < |s| :: Le(s[i], s[j])
  }

  ghost predicate StrictlySorted(s: seq<string>) {
    forall i, j | 0 <= i < j < |s| :: Less(s[i], s[j])
  }

  /** The key order of a `BTreeMap` after inserting `k`. */
  function InsertKey(keys: seq<string>, k: string): (r: seq<string>)
    ensures forall x :: x in r <==> x in keys || x == k
  {
    if keys == [] then [k]
    else if keys[0] == k then keys
    else if Le(k, keys[0]) then [k] + keys
    else [keys[0]] + InsertKey(keys[1..], k)
  }

  lemma {:induction false} InsertKeySorted(keys: seq<string>, k: string)
    requires StrictlySorted(keys)
    ensures StrictlySorted(InsertKey(keys, k))
  {
    if keys == [] || keys[0] == k {
    } else if Le(k, keys[0]) {
      forall j | 0 <= j < |keys| ensures Less(k, keys[j]) {
        if j > 0 {
          LeTransitive(k, keys[0], keys[j]);
          if k == keys[j] { LeAntisymmetric(k, keys[0]); }
        }
      }
    } else {
      InsertKeySorted(keys[1..], k);
      LeTotal(k, keys[0]);
      var rest := InsertKey(keys[1..], k);
      forall j | 0 <= j < |rest| ensures Less(keys[0], rest[j]) {
        assert rest[j] in rest;
      }
    }
  }

  /** Inserting into a sorted list, after equal elements' first position. */
  function Insert(s: seq<string>, x: string): (r: seq<string>)
    ensures multiset(r) == multiset(s) + multiset{x}
  {
    if s == [] then [x]
    else if Le(x, s[0]) then [x] + s
    else
      assert s == [s[0]] + s[1..];
      [s[0]] + Insert(s[1..], x)
  }

  /** `sort()` on strings. */
  function Sort(s: seq<string>): (r: seq<string>)
    ensures multiset(r) == multiset(s)
  {
    if s == [] then []
    else
      assert s == [s[0]] + s[1..];
      Insert(Sort(s[1..]), s[0])
  }

  lemma {:induction false} InsertSorted(s: seq<string>, x: string)
    requires Sorted(s)
    ensures Sorted(Insert(s, x))
  {
    if s == [] {
    } else if Le(x, s[0]) {
      forall j | 0 <= j < |s| ensures Le(x, s[j]) {
        if j > 0 { LeTransitive(x, s[0], s[j]); }
      }
    } else {
      InsertSorted(s[1..], x);
      LeTotal(x, s[0]);
      var rest := Insert(s[1..], x);
      forall j | 0 <= j < |rest| ensures Le(s[0], rest[j]) {
        assert rest[j] in multiset(rest);
        assert rest[j] in s[1..] || rest[j] == x;
      }
    }
  }

  lemma {:induction false} SortSorted(s: seq<string>)
    ensures Sorted(Sort(s))
  {
    if s == [] {
    } else {
      SortSorted(s[1..]);
      InsertSorted(Sort(s[1..]), s[0]);
    }
  }

  lemma SortedHeads(a: seq<string>, b: seq<string>)
    requires Sorted(a) && Sorted(b) && a != [] && b != []
    requires a[0] in b && b[0] in a
    ensures a[0] == b[0]
  {
    var i :| 0 <= i < |b| && b[i] == a[0];
    var j :| 0 <= j < |a| && a[j] == b[0];
    LeReflexive(a[0]);
    LeAntisymmetric(a[0], b[0]);
  }

  lemma DropHead(a: seq<string>)
    requires a != []
    ensures multiset(a[1..]) == multiset(a) - multiset{a[0]}
    ensures a == [a[0]] + a[1..]
  {
    assert a == [a[0]] + a[1..];
  }

  /** Two sorted lists of the same elements are the same list. */
  lemma {:induction false} SortedUnique(a: seq<string>, b: seq<string>)
    requires Sorted(a) && Sorted(b) && multiset(a) == multiset(b)
    ensures a == b
  {
    assert |a| == |multiset(a)| == |multiset(b)| == |b|;
    if a == [] {
    } else {
      assert a[0] in multiset(b) && b[0] in multiset(a);
      SortedHeads(a, b);
      DropHead(a);
      DropHead(b);
      SortedUnique(a[1..], b[1..]);
    }
  }

  /** Comparing two lists after sorting compares them as multisets. */
  lemma SortEqualIffSameElements(a: seq<string>, b: seq<string>)
    ensures Sort(a) == Sort(b) <==> multiset(a) == multiset(b)
  {
    if multiset(a) == multiset(b) {
      SortSorted(a);
      SortSorted(b);
      SortedUnique(Sort(a), Sort(b));
    }
  }
}
