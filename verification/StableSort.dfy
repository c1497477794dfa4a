/** `sort_by_key`: stable sorting by an integer key. */
module StableSort {

  /** Insertion before the first element whose key is not smaller. */
  function InsertBy<T>(s: seq<T>, x: T, key: T -> int): (r: seq<T>)
    ensures multiset(r) == multiset(s) + multiset{x}
    ensures |r| == |s| + 1
  {
    if s == [] then [x]
    else if key(x) <= key(s[0]) then [x] + s
    else
      assert s == [s[0]] + s[1..];
      [s[0]] + InsertBy(s[1..], x, key)
  }

  lemma InsertByMembers<T>(s: seq<T>, x: T, key: T -> int)
    ensures forall y :: y in InsertBy(s, x, key) <==> y in s || y == x
  {
    forall y ensures y in InsertBy(s, x, key) <==> y in s || y == x {
      assert y in multiset(InsertBy(s, x, key)) <==> y in multiset(s) + multiset{x};
    }
  }

  function SortBy<T>(s: seq<T>, key: T -> int): (r: seq<T>)
    ensures multiset(r) == multiset(s)
    ensures |r| == |s|
  {
    if s == [] then []
    else
      assert s == [s[0]] + s[1..];
      InsertBy(SortBy(s[1..], key), s[0], key)
  }

  ghost predicate SortedBy<T>(s: seq<T>, key: T -> int) {
    forall i, j | 0 <= i < j < |s| :: key(s[i]) <= key(s[j])
  }

  lemma {:induction false} InsertBySorted<T>(s: seq<T>, x: T, key: T -> int)
    requires SortedBy(s, key)
    ensures SortedBy(InsertBy(s, x, key), key)
  {
    if s == [] || key(x) <= key(s[0]) {
    } else {
      InsertBySorted(s[1..], x, key);
      var rest := InsertBy(s[1..], x, key);
      forall j | 0 <= j < |rest| ensures key(s[0]) <= key(rest[j]) {
        assert rest[j] in multiset(rest);
        assert rest[j] == x || rest[j] in s[1..];
      }
    }
  }

  lemma {:induction false} SortBySorted<T>(s: seq<T>, key: T -> int)
    ensures SortedBy(SortBy(s, key), key)
  {
    if s == [] {
    } else {
      SortBySorted(s[1..], key);
      InsertBySorted(SortBy(s[1..], key), s[0], key);
    }
  }

  ghost predicate Precedes<T>(s: seq<T>, a: T, b: T) {
    exists i, j :: 0 <= i < j < |s| && s[i] == a && s[j] == b
  }

  lemma PrecedesCons<T>(s: seq<T>, x: T, a: T, b: T)
    requires Precedes(s, a, b) || (a == x && b in s)
    ensures Precedes([x] + s, a, b)
  {
    if Precedes(s, a, b) {
      var i, j :| 0 <= i < j < |s| && s[i] == a && s[j] == b;
      assert ([x] + s)[i + 1] == a && ([x] + s)[j + 1] == b;
    } else {
      var j :| 0 <= j < |s| && s[j] == b;
      assert ([x] + s)[0] == a && ([x] + s)[j + 1] == b;
    }
  }

  /** Insertion keeps the order of what is there. */
  lemma {:induction false} InsertByKeeps<T>(s: seq<T>, x: T, key: T -> int, a: T, b: T)
    requires Precedes(s, a, b)
    ensures Precedes(InsertBy(s, x, key), a, b)
  {
    if key(x) <= key(s[0]) {
      PrecedesCons(s, x, a, b);
    } else {
      var i, j :| 0 <= i < j < |s| && s[i] == a && s[j] == b;
      InsertByMembers(s[1..], x, key);
      assert s[j] == s[1..][j - 1] && b in s[1..];
      if i > 0 {
        assert s[1..][i - 1] == a && Precedes(s[1..], a, b);
        InsertByKeeps(s[1..], x, key, a, b);
      }
      PrecedesCons(InsertBy(s[1..], x, key), s[0], a, b);
    }
  }

  /** The inserted element comes before those with no smaller key and after the others. */
  lemma {:induction false} InsertByPlaces<T>(s: seq<T>, x: T, key: T -> int, y: T)
    requires SortedBy(s, key) && y in s
    ensures if key(x) <= key(y) then Precedes(InsertBy(s, x, key), x, y) else Precedes(InsertBy(s, x, key), y, x)
  {
    var j :| 0 <= j < |s| && s[j] == y;
    if key(x) <= key(s[0]) {
      PrecedesCons(s, x, x, y);
    } else {
      InsertByMembers(s[1..], x, key);
      if y in s[1..] {
        InsertByPlaces(s[1..], x, key, y);
        if key(x) <= key(y) {
          PrecedesCons(InsertBy(s[1..], x, key), s[0], x, y);
        } else {
          PrecedesCons(InsertBy(s[1..], x, key), s[0], y, x);
        }
      } else {
        assert s == [s[0]] + s[1..] && y == s[0];
        PrecedesCons(InsertBy(s[1..], x, key), s[0], y, x);
      }
    }
  }

  /** Sorting orders by the key, and leaves elements with equal keys in the order they had. */
  lemma {:induction false} SortByStable<T>(s: seq<T>, key: T -> int, i: nat, j: nat)
    requires i < j < |s|
    ensures if key(s[j]) < key(s[i]) then Precedes(SortBy(s, key), s[j], s[i])
            else Precedes(SortBy(s, key), s[i], s[j])
  {
    var rest := s[1..];
    SortBySorted(rest, key);
    if i == 0 {
      SameMembers(rest, key);
      assert rest[j - 1] == s[j] && s[j] in rest;
      InsertByPlaces(SortBy(rest, key), s[0], key, s[j]);
    } else {
      assert rest[i - 1] == s[i] && rest[j - 1] == s[j];
      SortByStable(rest, key, i - 1, j - 1);
      if key(s[j]) < key(s[i]) {
        InsertByKeeps(SortBy(rest, key), s[0], key, s[j], s[i]);
      } else {
        InsertByKeeps(SortBy(rest, key), s[0], key, s[i], s[j]);
      }
    }
  }

  lemma SameMembers<T>(s: seq<T>, key: T -> int)
    ensures forall x :: x in SortBy(s, key) <==> x in s
  {
    forall x ensures x in SortBy(s, key) <==> x in s {
      assert x in multiset(SortBy(s, key)) <==> x in multiset(s);
    }
  }

  function Count<T>(s: seq<T>, p: T -> bool): nat {
    if s == [] then 0 else (if p(s[0]) then 1 else 0) + Count(s[1..], p)
  }

  lemma {:induction false} InsertByCount<T>(s: seq<T>, x: T, key: T -> int, p: T -> bool)
    ensures Count(InsertBy(s, x, key), p) == Count(s, p) + if p(x) then 1 else 0
  {
    if s == [] || key(x) <= key(s[0]) {
    } else {
      InsertByCount(s[1..], x, key, p);
    }
  }

  /** Sorting keeps the number of elements of any kind. */
  lemma {:induction false} SortByCount<T>(s: seq<T>, key: T -> int, p: T -> bool)
    ensures Count(SortBy(s, key), p) == Count(s, p)
  {
    if s == [] {
    } else {
      SortByCount(s[1..], key, p);
      InsertByCount(SortBy(s[1..], key), s[0], key, p);
    }
  }
}
