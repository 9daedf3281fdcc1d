/**
 The order Python's `sorted` uses on keys that are byte strings or tuples of them,
 and `sorted` itself. A key is a sequence of integers compared lexicographically.
 */
module Order {
  import opened Basics

  /** Lexicographic `a <= b`. */
  predicate Leq(a: seq<int>, b: seq<int>) {
    a == [] || (b != [] && (a[0] < b[0] || (a[0] == b[0] && Leq(a[1..], b[1..]))))
  }

  lemma {:induction false} LeqTotal(a: seq<int>, b: seq<int>)
    ensures Leq(a, b) || Leq(b, a)
  {
    if a != [] && b != [] && a[0] == b[0] {
      LeqTotal(a[1..], b[1..]);
    }
  }

  lemma {:induction false} LeqAntisymmetric(a: seq<int>, b: seq<int>)
    requires Leq(a, b) && Leq(b, a)
    ensures a == b
  {
    if a != [] && b != [] {
      LeqAntisymmetric(a[1..], b[1..]);
      assert a == [a[0]] + a[1..] && b == [b[0]] + b[1..];
    }
  }

  lemma {:induction false} LeqTransitive(a: seq<int>, b: seq<int>, c: seq<int>)
    requires Leq(a, b) && Leq(b, c)
    ensures Leq(a, c)
  {
    if a != [] && a[0] == b[0] == c[0] {
      LeqTransitive(a[1..], b[1..], c[1..]);
    }
  }

  function Insert<T>(x: T, s: seq<T>, key: T -> seq<int>): (r: seq<T>)
    ensures multiset(r) == multiset(s) + multiset{x}
  {
    if s == [] || Leq(key(x), key(s[0])) then [x] + s
    else
      assert s == [s[0]] + s[1..];
      [s[0]] + Insert(x, s[1..], key)
  }

  /** `sorted(s, key=key)`: stable, by the key. */
  function Sort<T>(s: seq<T>, key: T -> seq<int>): (r: seq<T>)
    ensures multiset(r) == multiset(s)
    ensures |r| == |s|
  {
    if s == [] then []
    else
      assert s == [s[0]] + s[1..];
      var r := Insert(s[0], Sort(s[1..], key), key);
      assert |r| == |multiset(r)| == |multiset(s)| == |s|;
      r
  }

  ghost predicate Sorted<T>(s: seq<T>, key: T -> seq<int>) {
    forall i, j :: 0 <= i < j < |s| ==> Leq(key(s[i]), key(s[j]))
  }

  ghost predicate InjectiveOn<T>(key: T -> seq<int>, s: seq<T>) {
    forall x, y :: x in s && y in s && key(x) == key(y) ==> x == y
  }

  lemma SortMembers<T(!new)>(s: seq<T>, key: T -> seq<int>)
    ensures SameElements(Sort(s, key), s)
  {
    forall x
      ensures x in Sort(s, key) <==> x in s
    {
      assert x in Sort(s, key) <==> x in multiset(Sort(s, key));
      assert x in s <==> x in multiset(s);
    }
  }

  lemma {:induction false} InsertSorted<T>(x: T, s: seq<T>, key: T -> seq<int>)
    requires Sorted(s, key)
    ensures Sorted(Insert(x, s, key), key)
  {
    if s == [] {
    } else if Leq(key(x), key(s[0])) {
      forall j | 0 <= j < |s|
        ensures Leq(key(x), key(s[j]))
      {
        if j > 0 {
          LeqTransitive(key(x), key(s[0]), key(s[j]));
        }
      }
    } else {
      var rest := Insert(x, s[1..], key);
      InsertSorted(x, s[1..], key);
      LeqTotal(key(x), key(s[0]));
      forall j | 0 <= j < |rest|
        ensures Leq(key(s[0]), key(rest[j]))
      {
        assert rest[j] in multiset(rest);
        assert rest[j] in s[1..] || rest[j] == x;
      }
    }
  }

  lemma {:induction false} SortSorted<T>(s: seq<T>, key: T -> seq<int>)
    ensures Sorted(Sort(s, key), key)
  {
    if s != [] {
      SortSorted(s[1..], key);
      InsertSorted(s[0], Sort(s[1..], key), key);
    }
  }

  lemma HeadIsLeast<T>(s: seq<T>, x: T, key: T -> seq<int>)
    requires Sorted(s, key) && x in s
    ensures Leq(key(s[0]), key(x))
  {
    LeqTotal(key(x), key(x));
  }

  lemma TailMultiset<T>(s: seq<T>)
    requires s != []
    ensures multiset(s[1..]) == multiset(s) - multiset{s[0]}
  {
    assert s == [s[0]] + s[1..];
  }

  /** Two sorted permutations of one list agree when the key tells elements apart. */
  lemma {:induction false} SortedUnique<T>(a: seq<T>, b: seq<T>, key: T -> seq<int>)
    requires multiset(a) == multiset(b)
    requires Sorted(a, key) && Sorted(b, key)
    requires InjectiveOn(key, a)
    ensures a == b
  {
    assert |a| == |multiset(a)| == |multiset(b)| == |b|;
    if a != [] {
      HeadsAgree(a, b, key);
      TailMultiset(a);
      TailMultiset(b);
      assert InjectiveOn(key, a[1..]) by {
        assert forall x :: x in a[1..] ==> x in a;
      }
      SortedUnique(a[1..], b[1..], key);
      assert a == [a[0]] + a[1..] && b == [b[0]] + b[1..];
    }
  }

  lemma HeadsAgree<T>(a: seq<T>, b: seq<T>, key: T -> seq<int>)
    requires multiset(a) == multiset(b) && a != [] && b != []
    requires Sorted(a, key) && Sorted(b, key)
    requires InjectiveOn(key, a)
    ensures a[0] == b[0]
  {
    assert b[0] in multiset(b) && a[0] in multiset(a);
    assert b[0] in a && a[0] in b;
    HeadIsLeast(a, b[0], key);
    HeadIsLeast(b, a[0], key);
    LeqAntisymmetric(key(a[0]), key(b[0]));
  }

  /** Sorting forgets the order it was given. */
  lemma SortCanonical<T>(a: seq<T>, b: seq<T>, key: T -> seq<int>)
    requires multiset(a) == multiset(b)
    requires InjectiveOn(key, a)
    ensures Sort(a, key) == Sort(b, key)
  {
    SortSorted(a, key);
    SortSorted(b, key);
    forall x | x in Sort(a, key)
      ensures x in a
    {
      assert x in multiset(Sort(a, key));
    }
    SortedUnique(Sort(a, key), Sort(b, key), key);
  }

  lemma SortOfSorted<T>(s: seq<T>, key: T -> seq<int>)
    requires Sorted(s, key) && InjectiveOn(key, s)
    ensures Sort(s, key) == s
  {
    SortSorted(s, key);
    SortedUnique(s, Sort(s, key), key);
  }

  lemma {:induction false} RepeatedTwice<T>(s: seq<T>, i: nat, j: nat)
    requires i < j < |s| && s[i] == s[j]
    ensures multiset(s)[s[i]] >= 2
  {
    assert s == [s[0]] + s[1..];
    if i == 0 {
      assert s[1..][j - 1] == s[0];
      assert s[0] in multiset(s[1..]);
    } else {
      RepeatedTwice(s[1..], i - 1, j - 1);
    }
  }

  lemma PermutedNoDup<T>(a: seq<T>, b: seq<T>)
    requires multiset(a) == multiset(b) && NoDup(a)
    ensures NoDup(b)
  {
    forall i, j | 0 <= i < j < |b|
      ensures b[i] != b[j]
    {
      if b[i] == b[j] {
        RepeatedTwice(b, i, j);
        MultisetCountOne(a, b[i]);
      }
    }
  }

  /** Sorting neither removes nor adds a repetition. */
  lemma SortNoDup<T>(s: seq<T>, key: T -> seq<int>)
    ensures NoDup(Sort(s, key)) <==> NoDup(s)
  {
    if NoDup(s) {
      PermutedNoDup(s, Sort(s, key));
    }
    if NoDup(Sort(s, key)) {
      PermutedNoDup(Sort(s, key), s);
    }
  }

  /** Duplicate-free lists with the same elements sort to the same list. */
  lemma SortSameElements<T(!new)>(a: seq<T>, b: seq<T>, key: T -> seq<int>)
    requires NoDup(a) && NoDup(b)
    requires SameElements(a, b)
    requires InjectiveOn(key, a)
    ensures Sort(a, key) == Sort(b, key)
  {
    SameElementsSameMultiset(a, b);
    SortCanonical(a, b, key);
  }
}
