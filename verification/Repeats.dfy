/**
 Repeated list entries. The merge drops the repeats of the lists it combines and keeps those
 of the lists it copies; this is what decides whether a merge repeats an entry.
 */
module Repeats {
  import opened Basics
  import opened Order
  import opened Canon
  import opened Values
  import opened Policy
  import opened Narrowing
  import opened Absorb

  /** Whether a list that is copied (not named by the extra block) or combined (named) may repeat entries. */
  ghost predicate ListsReplaced(parent: Option<map<Text, seq<Scalar>>>, extra: Option<map<Text, seq<Scalar>>>) {
    forall f :: f in Entries(parent) && f !in Entries(extra) ==> NoDup(Entries(parent)[f])
  }

  /** Every list of the parent that repeats an entry is named by the extra block too. */
  ghost predicate RepeatsReplaced(parent: Constraints, extra: Constraints) {
    && ListsReplaced(parent.forbiddenValues, extra.forbiddenValues)
    && ListsReplaced(parent.allowedValues, extra.allowedValues)
    && (extra.requiredPresent.None? ==> NoDup(NameList(parent.requiredPresent)))
    && (extra.forbiddenCombinations.None? ==> NoDup(SortedCombos(ComboList(parent.forbiddenCombinations))))
  }

  lemma ListsDupFreeIff(p: Platform, parent: Option<map<Text, seq<Scalar>>>, extra: Option<map<Text, seq<Scalar>>>,
                        both: (seq<Scalar>, seq<Scalar>) -> seq<Scalar>, m: Option<map<Text, seq<Scalar>>>)
    requires NormaliseLists(p, Overlay(parent, extra, both, Distinct)) == Ok(m)
    requires forall a, b :: NoDup(both(a, b))
    ensures ListsDupFree(m) <==> ListsReplaced(parent, extra)
  {
    var raw := Overlay(parent, extra, both, Distinct);
    hide NormaliseLists, SortScalars, NoDup;
    NormalisedLists(p, raw, m);
    var pe, ee, re, me := Entries(parent), Entries(extra), Entries(raw), Entries(m);
    assert re.Keys == pe.Keys + ee.Keys;
    forall f | f in me
      ensures NoDup(me[f]) <==> f in ee || NoDup(pe[f])
    {
      SortedListNoDup(re[f]);
      if f in ee {
        assert NoDup(re[f]);
      } else {
        assert re[f] == pe[f];
      }
    }
  }

  lemma SortedListNoDup(l: seq<Scalar>)
    ensures NoDup(SortScalars(l)) <==> NoDup(l)
  {
    SortNoDup(l, ScalarKey);
  }

  lemma RequiredDupFreeIff(p: Platform, parent: Constraints, extra: Constraints, m: Constraints)
    requires NormaliseRequired(p, MergedRequired(parent, extra)) == Ok(m.requiredPresent)
    ensures NoDup(NameList(m.requiredPresent)) <==>
            (extra.requiredPresent.None? ==> NoDup(NameList(parent.requiredPresent)))
  {
    SortNoDup(NameList(MergedRequired(parent, extra)), Key16);
    if extra.requiredPresent.Some? {
      SortNoDup(Dedup(NameList(parent.requiredPresent) + extra.requiredPresent.value), CodePointKey);
    }
  }

  /** Combinations are told apart by their names, whichever order the names are sorted in. */
  lemma SortedNamesNoDup(combos: seq<seq<Text>>)
    requires CombosAllOk(combos)
    ensures NoDup(SortedNames(combos)) <==> NoDup(SortedCombos(combos))
  {
    forall i, j | 0 <= i < |combos| && 0 <= j < |combos|
      ensures SortedNames(combos)[i] == SortedNames(combos)[j] <==> SortedCombos(combos)[i] == SortedCombos(combos)[j]
    {
      assert combos[i] in combos && combos[j] in combos;
      SortNamesAfterSortedCombo(combos[i]);
      SortNamesAfterSortedCombo(combos[j]);
      SortedComboAfterSortNames(combos[i]);
      SortedComboAfterSortNames(combos[j]);
    }
  }

  lemma CombosDupFreeIff(parent: Constraints, extra: Constraints, m: Constraints)
    requires NormaliseCombos(MergedCombos(parent, extra)) == Ok(m.forbiddenCombinations)
    ensures NoDup(SortedCombos(ComboList(m.forbiddenCombinations))) <==>
            (extra.forbiddenCombinations.None? ==> NoDup(SortedCombos(ComboList(parent.forbiddenCombinations))))
  {
    var raw, l := ComboList(MergedCombos(parent, extra)), ComboList(m.forbiddenCombinations);
    if m.forbiddenCombinations.Some? {
      NormalisedCombos(raw);
      SortCombosCanonical(raw);
      SortCombosMembers(raw);
      SortNoDup(SortedNames(raw), ComboKey);
      CanonicalNoDup(l);
      SortedNamesNoDup(raw);
      if extra.forbiddenCombinations.Some? {
        DedupSortedOnce(ComboList(parent.forbiddenCombinations) + extra.forbiddenCombinations.value);
      }
    }
  }

  /** A merge repeats no entry if and only if the extra block names every list of the parent that does. */
  lemma MergeDupFreeIff(p: Platform, parent: Constraints, extra: Constraints)
    requires Merge(p, parent, extra).Ok?
    ensures DupFree(Merge(p, parent, extra).value) <==> RepeatsReplaced(parent, extra)
  {
    var m := Merge(p, parent, extra).value;
    hide NormaliseLists, NormaliseRequired, NormaliseCombos, MergedRequired, MergedCombos, ListsDupFree, ListsReplaced,
      NoDup;
    NormaliseParts(p, RawMerge(parent, extra));
    UnionNoDup();
    ListsDupFreeIff(p, parent.forbiddenValues, extra.forbiddenValues, Union, m.forbiddenValues);
    ListsDupFreeIff(p, parent.allowedValues, extra.allowedValues, Intersect, m.allowedValues);
    RequiredDupFreeIff(p, parent, extra, m);
    CombosDupFreeIff(parent, extra, m);
  }

  lemma UnionNoDup()
    ensures forall a, b :: NoDup(Union(a, b)) && NoDup(Intersect(a, b))
  {
  }

  // ---- Told from lengths alone --------------------------------------------

  lemma {:induction false} DedupShortens<T(!new)>(s: seq<T>)
    ensures |Dedup(s)| == |s| <==> NoDup(s)
  {
    if s != [] {
      DedupShortens(s[..|s| - 1]);
    }
  }

  lemma {:induction false} ElementCount<T>(s: seq<T>)
    ensures |set x | x in s| <= |s|
  {
    if s != [] {
      var init, last := s[..|s| - 1], s[|s| - 1];
      ElementCount(init);
      assert (set x | x in s) == (set x | x in init) + {last};
    }
  }

  /** A duplicate-free list is as long as another with the same elements exactly when that one is duplicate-free too. */
  lemma SameLengthNoDup<T(!new)>(r: seq<T>, m: seq<T>)
    requires NoDup(r) && SameElements(r, m) && |r| == |m|
    ensures NoDup(m)
  {
    NoDupBound(r, set x | x in Dedup(m));
    ElementCount(Dedup(m));
    DedupShortens(m);
  }

  /** If relisting changes no list but by Python equality, nothing was repeated. */
  lemma RelistedLengths(p: Platform, r: Option<map<Text, seq<Scalar>>>, m: Option<map<Text, seq<Scalar>>>,
                        x: Option<map<Text, seq<Scalar>>>)
    requires Relists(r, m) && NormaliseLists(p, r) == Ok(x)
    requires forall f :: f in Entries(m) && f in Entries(x) ==> |Entries(x)[f]| == |Entries(m)[f]|
    ensures ListsDupFree(m)
  {
    NormalisedLists(p, r, x);
    hide NormaliseLists, NoDup, SameElements, SortScalars;
    forall f | f in Entries(m)
      ensures NoDup(Entries(m)[f])
    {
      SortedLength(Entries(r)[f]);
      SameLengthNoDup(Entries(r)[f], Entries(m)[f]);
    }
  }

  lemma SortedLength(l: seq<Scalar>)
    ensures |SortScalars(l)| == |l|
  {
    assert |multiset(SortScalars(l))| == |multiset(l)|;
  }
}
