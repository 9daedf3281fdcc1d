/** Optional values, fallible results and the few sequence facts every module shares. */
module Basics {
  datatype Option<+T> = None | Some(value: T) {
    function GetOr(default: T): T {
      match this
      case Some(v) => v
      case None => default
    }
  }

  /** A value, or the reason it was refused. Python's raised exceptions appear as `Err`. */
  datatype Result<+T, +E> = Ok(value: T) | Err(error: E) {
    predicate IsFailure() {
      Err?
    }

    function PropagateFailure<U>(): Result<U, E>
      requires Err?
    {
      Err(error)
    }

    function Extract(): T
      requires Ok?
    {
      value
    }
  }

  /** No two positions hold the same element. */
  ghost predicate NoDup<T>(s: seq<T>) {
    forall i, j :: 0 <= i < j < |s| ==> s[i] != s[j]
  }

  ghost predicate SameElements<T(!new)>(a: seq<T>, b: seq<T>) {
    forall x :: x in a <==> x in b
  }

  lemma NoDupConcat<T>(a: seq<T>, b: seq<T>)
    requires NoDup(a) && NoDup(b) && forall i :: 0 <= i < |a| ==> a[i] !in b
    ensures NoDup(a + b)
  {
  }

  /** The first occurrence of every element, in order: `dict.setdefault` over a list. */
  function Dedup<T(==,!new)>(s: seq<T>): (r: seq<T>)
    ensures forall x :: x in r <==> x in s
    ensures NoDup(r)
    ensures |r| <= |s|
  {
    if s == [] then []
    else
      var init, last := s[..|s| - 1], s[|s| - 1];
      var r := Dedup(init);
      assert forall x :: x in s <==> x in init || x == last;
      if last in init then r else r + [last]
  }

  lemma {:induction false} MultisetCountOne<T>(s: seq<T>, x: T)
    requires NoDup(s)
    ensures multiset(s)[x] == if x in s then 1 else 0
  {
    if s != [] {
      var init, last := s[..|s| - 1], s[|s| - 1];
      assert s == init + [last];
      MultisetCountOne(init, x);
    }
  }

  /** Duplicate-free lists with the same elements are permutations of each other. */
  lemma SameElementsSameMultiset<T(!new)>(a: seq<T>, b: seq<T>)
    requires NoDup(a) && NoDup(b)
    requires SameElements(a, b)
    ensures multiset(a) == multiset(b)
  {
    forall x
      ensures multiset(a)[x] == multiset(b)[x]
    {
      MultisetCountOne(a, x);
      MultisetCountOne(b, x);
    }
  }

  /** A list without repeats is no longer than a set that holds its elements. */
  lemma {:induction false} NoDupBound<T>(out: seq<T>, all: set<T>)
    requires NoDup(out) && forall x :: x in out ==> x in all
    ensures |out| <= |all|
  {
    if out != [] {
      var last := out[|out| - 1];
      var init := out[..|out| - 1];
      assert last !in init;
      NoDupBound(init, all - {last});
    }
  }

  /** A finite set can be listed. */
  lemma {:induction false} ListOf<T>(all: set<T>) returns (list: seq<T>)
    ensures NoDup(list) && forall x :: x in list <==> x in all
  {
    if all == {} {
      list := [];
    } else {
      var x :| x in all;
      var rest := ListOf(all - {x});
      list := rest + [x];
    }
  }
}
