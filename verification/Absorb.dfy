/**
 Algebra of the narrowing merge: canonical forms are fixed points, and merging a
 parent with its own narrowing gives that narrowing back.
 */
module Absorb {
  import opened Basics
  import opened Order
  import opened Canon
  import opened Values
  import opened Policy
  import opened Narrowing

  // ---- Sort keys tell admissible elements apart ---------------------------

  lemma ScalarKeyInjectiveOn(l: seq<Scalar>)
    requires MembersOk(l)
    ensures InjectiveOn(ScalarKey, l)
  {
    forall x, y | x in l && y in l && ScalarKey(x) == ScalarKey(y)
      ensures x == y
    {
      if x.Str? && y.Str? {
        assert Key16(x.text) == ScalarKey(x)[1..] == ScalarKey(y)[1..] == Key16(y.text);
        Key16Injective(x.text, y.text);
      } else {
        assert ScalarKey(x)[0] == ScalarKey(y)[0];
        assert ScalarKey(x)[1] == ScalarKey(y)[1];
      }
    }
  }

  lemma {:induction false} KeysNonNegative(u: seq<int>)
    requires forall i :: 0 <= i < |u| ==> 0 <= u[i]
    ensures forall i :: 0 <= i < |BigEndian(u)| ==> 0 <= BigEndian(u)[i]
  {
    if u != [] {
      KeysNonNegative(u[1..]);
    }
  }

  lemma ChunkSplit(a: seq<int>, b: seq<int>, s: seq<int>, t: seq<int>)
    requires forall i :: 0 <= i < |a| ==> a[i] != 0
    requires forall i :: 0 <= i < |b| ==> b[i] != 0
    requires a + [0] + s == b + [0] + t
    ensures a == b && s == t
  {
    var l, r := a + [0] + s, b + [0] + t;
    assert l[|a|] == 0 && r[|b|] == 0;
    assert forall i :: 0 <= i < |a| ==> l[i] != 0;
    assert forall i :: 0 <= i < |b| ==> r[i] != 0;
    assert |a| == |b|;
    assert l[..|a|] == a && r[..|b|] == b;
    assert l[|a| + 1..] == s && r[|b| + 1..] == t;
  }

  lemma ShiftedPositive(t: Text)
    ensures forall i :: 0 <= i < |Shifted(Key16(t))| ==> Shifted(Key16(t))[i] != 0
  {
    KeysNonNegative(CodeUnits(t));
  }

  lemma ShiftedInjective(a: seq<int>, b: seq<int>)
    requires Shifted(a) == Shifted(b)
    ensures a == b
  {
  }

  lemma ComboHeads(a: seq<Text>, b: seq<Text>)
    requires a != [] && b != [] && Clean(a[0]) && Clean(b[0]) && ComboKey(a) == ComboKey(b)
    ensures a[0] == b[0] && ComboKey(a[1..]) == ComboKey(b[1..])
  {
    hide Key16;
    var sa, sb := Shifted(Key16(a[0])), Shifted(Key16(b[0]));
    assert ComboKey(a) == sa + [0] + ComboKey(a[1..]);
    assert ComboKey(b) == sb + [0] + ComboKey(b[1..]);
    ShiftedPositive(a[0]);
    ShiftedPositive(b[0]);
    ChunkSplit(sa, sb, ComboKey(a[1..]), ComboKey(b[1..]));
    ShiftedInjective(Key16(a[0]), Key16(b[0]));
    Key16Injective(a[0], b[0]);
  }

  lemma ComboKeyEmpty(a: seq<Text>)
    ensures ComboKey(a) == [] <==> a == []
  {
  }

  lemma {:induction false} ComboKeyInjective(a: seq<Text>, b: seq<Text>)
    requires ComboOk(a) && ComboOk(b) && ComboKey(a) == ComboKey(b)
    ensures a == b
  {
    hide ComboKey, Clean;
    ComboKeyEmpty(a);
    ComboKeyEmpty(b);
    if a != [] && b != [] {
      assert a[0] in a && b[0] in b;
      assert forall k :: k in a[1..] ==> k in a;
      assert forall k :: k in b[1..] ==> k in b;
      ComboHeads(a, b);
      ComboKeyInjective(a[1..], b[1..]);
      assert a == [a[0]] + a[1..] && b == [b[0]] + b[1..];
    }
  }

  lemma ComboKeyInjectiveOn(combos: seq<seq<Text>>)
    requires forall c :: c in combos ==> ComboOk(c)
    ensures InjectiveOn(ComboKey, combos)
  {
    forall a, b | a in combos && b in combos && ComboKey(a) == ComboKey(b)
      ensures a == b
    {
      ComboKeyInjective(a, b);
    }
  }

  // ---- Value lists --------------------------------------------------------

  lemma SortScalarsMembers(l: seq<Scalar>)
    ensures SameElements(SortScalars(l), l)
    ensures MembersOk(SortScalars(l)) <==> MembersOk(l)
  {
    SortMembers(l, ScalarKey);
  }

  lemma SortScalarsFixed(l: seq<Scalar>)
    requires MembersOk(l)
    ensures SortScalars(SortScalars(l)) == SortScalars(l)
  {
    SortScalarsMembers(l);
    SortSorted(l, ScalarKey);
    ScalarKeyInjectiveOn(SortScalars(l));
    SortOfSorted(SortScalars(l), ScalarKey);
  }

  /** A duplicate-free relisting of `m` sorts back to `m` exactly when `m` has no duplicates. */
  lemma RelistAbsorbs(x: seq<Scalar>, m: seq<Scalar>)
    requires NoDup(x) && SameElements(x, m) && MembersOk(m) && SortScalars(m) == m
    ensures MembersOk(x)
    ensures SortScalars(x) == m <==> NoDup(m)
  {
    ScalarKeyInjectiveOn(x);
    if NoDup(m) {
      SortSameElements(x, m, ScalarKey);
    }
    SortNoDup(x, ScalarKey);
  }

  /** Every list is duplicate-free. */
  ghost predicate ListsDupFree(m: Option<map<Text, seq<Scalar>>>) {
    forall f :: f in Entries(m) ==> NoDup(Entries(m)[f])
  }

  lemma NormalisedLists(p: Platform, x: Option<map<Text, seq<Scalar>>>, m: Option<map<Text, seq<Scalar>>>)
    requires NormaliseLists(p, x) == Ok(m)
    ensures x.Some? <==> m.Some?
    ensures Entries(x).Keys == Entries(m).Keys
    ensures forall f :: f in Entries(m) ==> MembersOk(Entries(x)[f]) && Entries(m)[f] == SortScalars(Entries(x)[f])
    ensures m.Some? ==> FieldKeysOk(p, m.value.Keys)
  {
  }

  lemma NormaliseListsFixed(p: Platform, x: Option<map<Text, seq<Scalar>>>, m: Option<map<Text, seq<Scalar>>>)
    requires NormaliseLists(p, x) == Ok(m)
    ensures NormaliseLists(p, m) == Ok(m)
    ensures forall f :: f in Entries(m) ==> MembersOk(Entries(m)[f]) && SortScalars(Entries(m)[f]) == Entries(m)[f]
  {
    NormalisedLists(p, x, m);
    forall f | f in Entries(m)
      ensures MembersOk(Entries(m)[f]) && SortScalars(Entries(m)[f]) == Entries(m)[f]
    {
      SortScalarsMembers(Entries(x)[f]);
      SortScalarsFixed(Entries(x)[f]);
    }
    if m.Some? {
      assert (map f | f in m.value :: SortScalars(m.value[f])) == m.value;
    }
  }

  /** `r` lists, without repetition, the same members as the canonical `m`, field by field. */
  ghost predicate Relists(r: Option<map<Text, seq<Scalar>>>, m: Option<map<Text, seq<Scalar>>>) {
    && (r.Some? <==> m.Some?)
    && Entries(r).Keys == Entries(m).Keys
    && forall f :: f in Entries(m) ==>
         && NoDup(Entries(r)[f]) && SameElements(Entries(r)[f], Entries(m)[f])
         && MembersOk(Entries(m)[f]) && SortScalars(Entries(m)[f]) == Entries(m)[f]
  }

  lemma RelistsSorted(r: map<Text, seq<Scalar>>, m: map<Text, seq<Scalar>>)
    requires Relists(Some(r), Some(m))
    ensures forall f :: f in r ==> MembersOk(r[f])
    ensures (map f | f in r :: SortScalars(r[f])) == m <==> ListsDupFree(Some(m))
  {
    hide SortScalars, MembersOk, NoDup, SameElements;
    forall f | f in m
      ensures MembersOk(r[f])
      ensures SortScalars(r[f]) == m[f] <==> NoDup(m[f])
    {
      assert f in Entries(Some(m));
      RelistAbsorbs(r[f], m[f]);
    }
    var n := map f | f in r :: SortScalars(r[f]);
    assert n == m <==> forall f :: f in m ==> n[f] == m[f];
  }

  lemma ListsAbsorb(p: Platform, r: Option<map<Text, seq<Scalar>>>, m: Option<map<Text, seq<Scalar>>>)
    requires Relists(r, m)
    requires m.Some? ==> FieldKeysOk(p, m.value.Keys)
    ensures NormaliseLists(p, r).Ok?
    ensures NormaliseLists(p, r) == Ok(m) <==> ListsDupFree(m)
  {
    if m.Some? {
      RelistsSorted(r.value, m.value);
      assert r.value.Keys == m.value.Keys;
    }
  }

  lemma AbsorbForbidden(p: Platform, parent: Constraints, extra: Constraints, m: Constraints)
    requires NormaliseLists(p, MergedForbidden(parent, extra)) == Ok(m.forbiddenValues)
    ensures NormaliseLists(p, MergedForbidden(parent, m)).Ok? && Relists(MergedForbidden(parent, m), m.forbiddenValues)
    ensures NormaliseLists(p, MergedForbidden(parent, m)) == Ok(m.forbiddenValues) <==> ListsDupFree(m.forbiddenValues)
  {
    hide NormaliseLists, SortScalars;
    var raw := MergedForbidden(parent, extra);
    var pe, me := Entries(parent.forbiddenValues), Entries(m.forbiddenValues);
    NormalisedLists(p, raw, m.forbiddenValues);
    NormaliseListsFixed(p, raw, m.forbiddenValues);
    var r := MergedForbidden(parent, m);
    assert pe.Keys <= Entries(raw).Keys == me.Keys;
    if me != map[] {
      assert Entries(r).Keys == me.Keys;
    } else {
      assert me.Keys == {};
      assert pe == map[];
    }
    forall f | f in me
      ensures NoDup(Entries(r)[f]) && SameElements(Entries(r)[f], me[f])
    {
      SortScalarsMembers(Entries(raw)[f]);
      if f in pe {
        assert forall x :: x in pe[f] ==> x in Entries(raw)[f];
        assert Entries(r)[f] == Union(pe[f], me[f]);
      } else {
        assert Entries(r)[f] == Dedup(me[f]);
      }
    }
    ListsAbsorb(p, r, m.forbiddenValues);
  }

  lemma AbsorbAllowed(p: Platform, parent: Constraints, extra: Constraints, m: Constraints)
    requires NormaliseLists(p, MergedAllowed(parent, extra)) == Ok(m.allowedValues)
    ensures NormaliseLists(p, MergedAllowed(parent, m)).Ok? && Relists(MergedAllowed(parent, m), m.allowedValues)
    ensures NormaliseLists(p, MergedAllowed(parent, m)) == Ok(m.allowedValues) <==> ListsDupFree(m.allowedValues)
  {
    hide NormaliseLists, SortScalars;
    var raw := MergedAllowed(parent, extra);
    var pe, me := Entries(parent.allowedValues), Entries(m.allowedValues);
    NormalisedLists(p, raw, m.allowedValues);
    NormaliseListsFixed(p, raw, m.allowedValues);
    var r := MergedAllowed(parent, m);
    assert pe.Keys <= Entries(raw).Keys == me.Keys;
    if me != map[] {
      assert Entries(r).Keys == me.Keys;
    } else {
      assert me.Keys == {};
      assert pe == map[];
    }
    forall f | f in me
      ensures NoDup(Entries(r)[f]) && SameElements(Entries(r)[f], me[f])
    {
      SortScalarsMembers(Entries(raw)[f]);
      if f in pe {
        assert forall x :: x in Entries(raw)[f] ==> x in pe[f];
        assert Entries(r)[f] == Intersect(pe[f], me[f]);
      } else {
        assert Entries(r)[f] == Dedup(me[f]);
      }
    }
    ListsAbsorb(p, r, m.allowedValues);
  }

  // ---- Required fields ----------------------------------------------------

  lemma ParentNamesKept(parent: Constraints, extra: Constraints, l: seq<Text>)
    requires l == SortNames(NameList(MergedRequired(parent, extra)))
    ensures forall x :: x in NameList(parent.requiredPresent) ==> x in l
  {
    SortMembers(NameList(MergedRequired(parent, extra)), Key16);
    if extra.requiredPresent.Some? {
      SortMembers(Dedup(NameList(parent.requiredPresent) + extra.requiredPresent.value), CodePointKey);
    }
  }

  lemma AbsorbNames(p: Platform, pe: seq<Text>, raw: seq<Text>, l: seq<Text>)
    requires NameListOk(p, raw) && l == SortNames(raw)
    requires forall x :: x in pe ==> x in l
    ensures var r := Sort(Dedup(pe + l), CodePointKey);
            NameListOk(p, r) && (SortNames(r) == l <==> NoDup(l))
  {
    SortMembers(raw, Key16);
    var d := Dedup(pe + l);
    SortMembers(d, CodePointKey);
    SortNoDup(d, CodePointKey);
    RelistNamesAbsorbs(Sort(d, CodePointKey), l, raw);
  }

  lemma AbsorbRequired(p: Platform, parent: Constraints, extra: Constraints, m: Constraints)
    requires NormaliseRequired(p, MergedRequired(parent, extra)) == Ok(m.requiredPresent)
    ensures NormaliseRequired(p, MergedRequired(parent, m)).Ok?
    ensures NormaliseRequired(p, MergedRequired(parent, m)) == Ok(m.requiredPresent)
            <==> NoDup(NameList(m.requiredPresent))
  {
    if m.requiredPresent.Some? {
      var raw, l := NameList(MergedRequired(parent, extra)), m.requiredPresent.value;
      ParentNamesKept(parent, extra, l);
      AbsorbNames(p, NameList(parent.requiredPresent), raw, l);
    }
  }

  lemma RelistNamesAbsorbs(r: seq<Text>, l: seq<Text>, raw: seq<Text>)
    requires NoDup(r) && SameElements(r, l) && l == SortNames(raw)
    requires forall k :: k in l ==> Clean(k)
    ensures SortNames(r) == l <==> NoDup(l)
  {
    Key16InjectiveOn(r);
    Key16InjectiveOn(l);
    SortSorted(raw, Key16);
    SortOfSorted(l, Key16);
    if NoDup(l) {
      SortSameElements(r, l, Key16);
    }
    SortNoDup(r, Key16);
  }

  // ---- Field combinations -------------------------------------------------

  lemma SortNamesAfterSortedCombo(c: seq<Text>)
    requires ComboOk(c)
    ensures SortNames(SortedCombo(c)) == SortNames(c)
    ensures ComboOk(SortedCombo(c)) && ComboOk(SortNames(c))
  {
    SortMembers(c, CodePointKey);
    SortMembers(c, Key16);
    Key16InjectiveOn(SortedCombo(c));
    SortCanonical(SortedCombo(c), c, Key16);
  }

  lemma SortedComboAfterSortNames(c: seq<Text>)
    ensures SortedCombo(SortNames(c)) == SortedCombo(c)
    ensures SortedCombo(SortedCombo(c)) == SortedCombo(c)
  {
    SortCanonical(SortNames(c), c, CodePointKey);
    SortCanonical(SortedCombo(c), c, CodePointKey);
  }

  function SortedNames(combos: seq<seq<Text>>): (r: seq<seq<Text>>)
    ensures |r| == |combos| && forall i :: 0 <= i < |r| ==> r[i] == SortNames(combos[i])
  {
    seq(|combos|, i requires 0 <= i < |combos| => SortNames(combos[i]))
  }

  lemma SortCombosMembers(combos: seq<seq<Text>>)
    ensures SameElements(SortCombos(combos), SortedNames(combos))
    ensures SortCombos(combos) == Sort(SortedNames(combos), ComboKey)
  {
    assert SortedNames(combos) == seq(|combos|, i requires 0 <= i < |combos| => SortNames(combos[i]));
    SortMembers(SortedNames(combos), ComboKey);
  }

  predicate CombosAllOk(combos: seq<seq<Text>>) {
    forall c :: c in combos ==> ComboOk(c)
  }

  /** Combinations in canonical form: what `SortCombos` returns. */
  ghost predicate CanonicalCombos(m: seq<seq<Text>>) {
    && CombosAllOk(m)
    && (forall c :: c in m ==> SortNames(c) == c)
    && Sort(m, ComboKey) == m
  }

  lemma SortCombosCanonical(combos: seq<seq<Text>>)
    requires CombosAllOk(combos)
    ensures CanonicalCombos(SortCombos(combos))
  {
    var s, m := SortedNames(combos), SortCombos(combos);
    SortCombosMembers(combos);
    forall c | c in m
      ensures ComboOk(c) && SortNames(c) == c
    {
      var i :| 0 <= i < |s| && s[i] == c;
      assert combos[i] in combos;
      SortNamesAfterSortedCombo(combos[i]);
      Key16InjectiveOn(c);
      SortSorted(combos[i], Key16);
      SortOfSorted(c, Key16);
    }
    ComboKeyInjectiveOn(m);
    SortSorted(s, ComboKey);
    SortOfSorted(m, ComboKey);
  }

  /** Distinct canonical combinations stay distinct as code-point-sorted tuples. */
  lemma CanonicalNoDup(m: seq<seq<Text>>)
    requires CanonicalCombos(m)
    ensures NoDup(m) <==> NoDup(SortedCombos(m))
  {
    forall i, j | 0 <= i < |m| && 0 <= j < |m| && SortedCombo(m[i]) == SortedCombo(m[j])
      ensures m[i] == m[j]
    {
      assert m[i] in m && m[j] in m;
      SortNamesAfterSortedCombo(m[i]);
      SortNamesAfterSortedCombo(m[j]);
    }
  }

  /** A list of code-point-sorted tuples covering exactly the canonical list `m`. */
  ghost predicate Covers(d: seq<seq<Text>>, m: seq<seq<Text>>) {
    && NoDup(d)
    && (forall c :: c in d ==> exists i :: 0 <= i < |m| && c == SortedCombo(m[i]))
    && (forall i :: 0 <= i < |m| ==> SortedCombo(m[i]) in d)
  }

  lemma CoverMembers(d: seq<seq<Text>>, m: seq<seq<Text>>)
    requires CanonicalCombos(m) && Covers(d, m)
    ensures CombosAllOk(d) && SameElements(SortedNames(d), m) && NoDup(SortedNames(d))
  {
    var s := SortedNames(d);
    forall j | 0 <= j < |d|
      ensures ComboOk(d[j]) && s[j] in m && SortedCombo(s[j]) == d[j]
    {
      assert d[j] in d;
      var i :| 0 <= i < |m| && d[j] == SortedCombo(m[i]);
      assert m[i] in m;
      SortNamesAfterSortedCombo(m[i]);
      SortedComboAfterSortNames(d[j]);
      SortedComboAfterSortNames(m[i]);
    }
    forall c | c in m
      ensures c in s
    {
      var i :| 0 <= i < |m| && m[i] == c;
      var j :| 0 <= j < |d| && d[j] == SortedCombo(m[i]);
      SortNamesAfterSortedCombo(c);
      assert s[j] == c;
    }
  }

  lemma CoverAbsorbs(d: seq<seq<Text>>, m: seq<seq<Text>>)
    requires CanonicalCombos(m) && Covers(d, m)
    ensures CombosAllOk(d)
    ensures SortCombos(d) == m <==> NoDup(m)
  {
    CoverMembers(d, m);
    SortCombosMembers(d);
    var s := SortedNames(d);
    ComboKeyInjectiveOn(s);
    if NoDup(m) {
      SortSameElements(s, m, ComboKey);
    }
    SortNoDup(s, ComboKey);
  }

  /** The merged combinations contain every parent combination, up to order inside it. */
  lemma ParentComboKept(parent: Constraints, extra: Constraints, m: seq<seq<Text>>, c: seq<Text>)
    requires m == SortCombos(ComboList(MergedCombos(parent, extra)))
    requires c in ComboList(parent.forbiddenCombinations)
    ensures exists i :: 0 <= i < |m| && SortedCombo(m[i]) == SortedCombo(c)
  {
    var p := ComboList(parent.forbiddenCombinations);
    var raw := ComboList(MergedCombos(parent, extra));
    var k :| 0 <= k < |p| && p[k] == c;
    var r := c;
    if extra.forbiddenCombinations.Some? {
      var all := p + extra.forbiddenCombinations.value;
      r := SortedCombo(c);
      assert SortedCombos(all)[k] == r;
    }
    assert r in raw;
    var j :| 0 <= j < |raw| && raw[j] == r;
    SortCombosMembers(raw);
    assert SortedNames(raw)[j] in m;
    var i :| 0 <= i < |m| && m[i] == SortNames(r);
    SortedComboAfterSortNames(r);
    SortedComboAfterSortNames(c);
  }

  lemma AbsorbComboList(parent: Constraints, extra: Constraints, l: seq<seq<Text>>)
    requires CombosAllOk(ComboList(MergedCombos(parent, extra)))
    requires l == SortCombos(ComboList(MergedCombos(parent, extra)))
    ensures var d := Dedup(SortedCombos(ComboList(parent.forbiddenCombinations) + l));
            CombosAllOk(d) && (SortCombos(d) == l <==> NoDup(SortedCombos(l)))
  {
    SortCombosCanonical(ComboList(MergedCombos(parent, extra)));
    CoversMerged(parent, extra, l);
    CoverAbsorbs(Dedup(SortedCombos(ComboList(parent.forbiddenCombinations) + l)), l);
    CanonicalNoDup(l);
  }

  lemma AbsorbCombos(parent: Constraints, extra: Constraints, m: Constraints)
    requires NormaliseCombos(MergedCombos(parent, extra)) == Ok(m.forbiddenCombinations)
    ensures NormaliseCombos(MergedCombos(parent, m)).Ok?
    ensures NormaliseCombos(MergedCombos(parent, m)) == Ok(m.forbiddenCombinations) <==>
            NoDup(SortedCombos(ComboList(m.forbiddenCombinations)))
  {
    if m.forbiddenCombinations.Some? {
      var l := m.forbiddenCombinations.value;
      NormalisedCombos(MergedCombos(parent, extra).value);
      AbsorbComboList(parent, extra, l);
      NormalisedCombos(Dedup(SortedCombos(ComboList(parent.forbiddenCombinations) + l)));
    }
  }

  lemma NormalisedCombos(x: seq<seq<Text>>)
    ensures NormaliseCombos(Some(x)).Ok? <==> CombosAllOk(x)
    ensures CombosAllOk(x) ==> NormaliseCombos(Some(x)) == Ok(Some(SortCombos(x)))
  {
  }

  lemma CoversMerged(parent: Constraints, extra: Constraints, l: seq<seq<Text>>)
    requires l == SortCombos(ComboList(MergedCombos(parent, extra)))
    ensures Covers(Dedup(SortedCombos(ComboList(parent.forbiddenCombinations) + l)), l)
  {
    var p := ComboList(parent.forbiddenCombinations);
    forall c | c in p
      ensures exists i :: 0 <= i < |l| && SortedCombo(l[i]) == SortedCombo(c)
    {
      ParentComboKept(parent, extra, l, c);
    }
    CoversWithParents(p, l);
  }

  lemma CoversWithParents(p: seq<seq<Text>>, l: seq<seq<Text>>)
    requires forall c :: c in p ==> exists i :: 0 <= i < |l| && SortedCombo(l[i]) == SortedCombo(c)
    ensures Covers(Dedup(SortedCombos(p + l)), l)
  {
    var all := SortedCombos(p + l);
    forall c | c in Dedup(all)
      ensures exists i :: 0 <= i < |l| && c == SortedCombo(l[i])
    {
      var k :| 0 <= k < |all| && all[k] == c;
      if k < |p| {
        assert p[k] in p;
      } else {
        assert (p + l)[k] == l[k - |p|];
      }
    }
    forall i | 0 <= i < |l|
      ensures SortedCombo(l[i]) in Dedup(all)
    {
      assert all[|p| + i] == SortedCombo(l[i]);
    }
  }

  lemma DedupSortedOnce(all: seq<seq<Text>>)
    ensures NoDup(SortedCombos(Dedup(SortedCombos(all))))
  {
    var d := Dedup(SortedCombos(all));
    forall i | 0 <= i < |d|
      ensures SortedCombo(d[i]) == d[i]
    {
      assert d[i] in SortedCombos(all);
      var k :| 0 <= k < |all| && SortedCombos(all)[k] == d[i];
      SortedComboAfterSortNames(all[k]);
    }
  }

  // ---- Whole blocks -------------------------------------------------------

  /** No list of the block repeats an entry; combinations are compared as sets of names with multiplicity. */
  ghost predicate DupFree(c: Constraints) {
    && ListsDupFree(c.forbiddenValues)
    && ListsDupFree(c.allowedValues)
    && NoDup(NameList(c.requiredPresent))
    && NoDup(SortedCombos(ComboList(c.forbiddenCombinations)))
  }

  lemma OverlayAbsorbs<V(!new)>(parent: Option<map<Text, V>>, extra: Option<map<Text, V>>,
                                both: (V, V) -> V, alone: V -> V)
    requires forall p, e :: both(p, both(p, e)) == both(p, e)
    requires forall v :: both(v, v) == v && alone(v) == v
    ensures var m := Overlay(parent, extra, both, alone); Overlay(parent, m, both, alone) == m
  {
    var m := Overlay(parent, extra, both, alone);
    var pe, ee, me := Entries(parent), Entries(extra), Entries(m);
    assert me.Keys == pe.Keys + ee.Keys;
    if me != map[] {
      var again := Overlay(parent, m, both, alone).value;
      assert again.Keys == me.Keys;
      forall f | f in me
        ensures again[f] == me[f]
      {
      }
      assert again == me;
    } else {
      assert ee == map[] by { assert ee.Keys <= me.Keys; }
    }
  }

  lemma AbsorbSimple(p: Platform, parent: Constraints, extra: Constraints, m: Constraints)
    requires Merge(p, parent, extra) == Ok(m)
    ensures PrefixesExtend(parent, m)
    ensures NormaliseFields(p, MergedPrefixes(parent, m)) == Ok(m.startsWith)
    ensures NormaliseFields(p, MergedMax(parent, m)) == Ok(m.maxValue)
    ensures NormaliseFields(p, MergedMin(parent, m)) == Ok(m.minValue)
  {
    NormaliseParts(p, RawMerge(parent, extra));
    assert m.startsWith == MergedPrefixes(parent, extra);
    assert m.maxValue == MergedMax(parent, extra) && m.minValue == MergedMin(parent, extra);
    OverlayAbsorbs(parent.startsWith, extra.startsWith, Latter, Itself);
    OverlayAbsorbs(parent.maxValue, extra.maxValue, Smaller, Itself);
    OverlayAbsorbs(parent.minValue, extra.minValue, Larger, Itself);
  }

  /**
   Absorption: merging the parent with the merge gives the merge back, if and only if
   the merge repeats no entry.
   */
  lemma MergeAbsorbsIff(p: Platform, parent: Constraints, extra: Constraints, m: Constraints)
    requires Merge(p, parent, extra) == Ok(m)
    ensures Merge(p, parent, m).Ok?
    ensures Merge(p, parent, m) == Ok(m) <==> DupFree(m)
  {
    NormaliseParts(p, RawMerge(parent, extra));
    AbsorbSimple(p, parent, extra, m);
    AbsorbForbidden(p, parent, extra, m);
    AbsorbAllowed(p, parent, extra, m);
    AbsorbRequired(p, parent, extra, m);
    AbsorbCombos(parent, extra, m);
    NormaliseParts(p, RawMerge(parent, m));
  }

  /** Normalising a canonical block changes nothing. */
  lemma NormaliseIdempotent(p: Platform, c: Constraints, n: Constraints)
    requires Normalise(p, c) == Ok(n)
    ensures Normalise(p, n) == Ok(n)
  {
    NormaliseParts(p, c);
    NormaliseListsFixed(p, c.forbiddenValues, n.forbiddenValues);
    NormaliseListsFixed(p, c.allowedValues, n.allowedValues);
    NormaliseRequiredFixed(p, c.requiredPresent, n.requiredPresent);
    NormaliseCombosFixed(c.forbiddenCombinations, n.forbiddenCombinations);
  }

  lemma NormaliseRequiredFixed(p: Platform, x: Option<seq<Text>>, n: Option<seq<Text>>)
    requires NormaliseRequired(p, x) == Ok(n)
    ensures NormaliseRequired(p, n) == Ok(n)
  {
    if n.Some? {
      SortMembers(x.value, Key16);
      Key16InjectiveOn(n.value);
      SortSorted(x.value, Key16);
      SortOfSorted(n.value, Key16);
    }
  }

  lemma CanonicalFixed(m: seq<seq<Text>>)
    requires CanonicalCombos(m)
    ensures SortCombos(m) == m
  {
    hide SortCombos;
    SortCombosMembers(m);
    assert forall i :: 0 <= i < |m| ==> m[i] in m;
    assert SortedNames(m) == m;
  }

  lemma NormaliseCombosFixed(x: Option<seq<seq<Text>>>, n: Option<seq<seq<Text>>>)
    requires NormaliseCombos(x) == Ok(n)
    ensures NormaliseCombos(n) == Ok(n)
  {
    if n.Some? {
      hide SortCombos;
      NormalisedCombos(x.value);
      SortCombosCanonical(x.value);
      CanonicalFixed(n.value);
      NormalisedCombos(n.value);
    }
  }
}
