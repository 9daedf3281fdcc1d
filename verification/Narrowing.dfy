/**
 The narrowing merge of two constraint blocks (`_merge_narrowing`), and what it means
 for the calls the blocks admit.
 */
module Narrowing {
  import opened Basics
  import opened Order
  import opened Canon
  import opened Values
  import opened Policy

  // ---- Specification of the merge -----------------------------------------

  /** The members of `a` that are also, as JSON values, members of `b`. */
  function Keep(a: seq<Scalar>, b: seq<Scalar>): (r: seq<Scalar>)
    ensures forall x :: x in r <==> x in a && x in b
  {
    if a == [] then [] else (if a[0] in b then [a[0]] else []) + Keep(a[1..], b)
  }

  /** `_union_values`. */
  function Union(a: seq<Scalar>, b: seq<Scalar>): seq<Scalar> {
    Dedup(a + b)
  }

  /** `_intersect_values`. */
  function Intersect(a: seq<Scalar>, b: seq<Scalar>): seq<Scalar> {
    Dedup(Keep(a, b))
  }

  /** Parent entries, with every extra entry combined in by `both` or added by `alone`. */
  function Overlay<V>(parent: Option<map<Text, V>>, extra: Option<map<Text, V>>,
                      both: (V, V) -> V, alone: V -> V): Option<map<Text, V>>
  {
    var p, e := Entries(parent), Entries(extra);
    if e == map[] then parent
    else Some(map f | f in p.Keys + e.Keys ::
                if f !in e then p[f] else if f in p then both(p[f], e[f]) else alone(e[f]))
  }

  function Distinct(values: seq<Scalar>): seq<Scalar> {
    Dedup(values)
  }

  function Smaller(a: int, b: int): int {
    if a <= b then a else b
  }

  function Larger(a: int, b: int): int {
    if a >= b then a else b
  }

  function Latter<V>(a: V, b: V): V {
    b
  }

  function Itself<V>(a: V): V {
    a
  }

  function MergedForbidden(parent: Constraints, extra: Constraints): Option<map<Text, seq<Scalar>>> {
    Overlay(parent.forbiddenValues, extra.forbiddenValues, Union, Distinct)
  }

  function MergedAllowed(parent: Constraints, extra: Constraints): Option<map<Text, seq<Scalar>>> {
    Overlay(parent.allowedValues, extra.allowedValues, Intersect, Distinct)
  }

  function MergedPrefixes(parent: Constraints, extra: Constraints): Option<map<Text, Text>> {
    Overlay(parent.startsWith, extra.startsWith, Latter, Itself)
  }

  function MergedMax(parent: Constraints, extra: Constraints): Option<map<Text, int>> {
    Overlay(parent.maxValue, extra.maxValue, Smaller, Itself)
  }

  function MergedMin(parent: Constraints, extra: Constraints): Option<map<Text, int>> {
    Overlay(parent.minValue, extra.minValue, Larger, Itself)
  }

  /** Code-point order, Python's own order on strings. */
  function CodePointKey(t: Text): seq<int> {
    t
  }

  function SortedCombo(combo: seq<Text>): seq<Text> {
    Sort(combo, CodePointKey)
  }

  function MergedRequired(parent: Constraints, extra: Constraints): Option<seq<Text>> {
    if extra.requiredPresent.None? then parent.requiredPresent
    else Some(Sort(Dedup(NameList(parent.requiredPresent) + extra.requiredPresent.value), CodePointKey))
  }

  function SortedCombos(combos: seq<seq<Text>>): (r: seq<seq<Text>>)
    ensures |r| == |combos| && forall i :: 0 <= i < |r| ==> r[i] == SortedCombo(combos[i])
  {
    seq(|combos|, i requires 0 <= i < |combos| => SortedCombo(combos[i]))
  }

  function MergedCombos(parent: Constraints, extra: Constraints): Option<seq<seq<Text>>> {
    if extra.forbiddenCombinations.None? then parent.forbiddenCombinations
    else Some(Dedup(SortedCombos(ComboList(parent.forbiddenCombinations) +
                                 extra.forbiddenCombinations.value)))
  }

  /** `_merge_starts_with` accepts: every shared prefix is extended, as a raw string. */
  predicate PrefixesExtend(parent: Constraints, extra: Constraints) {
    forall f :: f in Entries(parent.startsWith) && f in Entries(extra.startsWith) ==>
      HasPrefix(extra.startsWith.value[f], parent.startsWith.value[f])
  }

  function RawMerge(parent: Constraints, extra: Constraints): Constraints {
    Constraints(MergedForbidden(parent, extra), MergedAllowed(parent, extra),
                MergedPrefixes(parent, extra), MergedMax(parent, extra), MergedMin(parent, extra),
                MergedRequired(parent, extra), MergedCombos(parent, extra), parent.unknownKinds)
  }

  /** `_merge_narrowing`. */
  function Merge(p: Platform, parent: Constraints, extra: Constraints): Result<Constraints, Refusal> {
    if !PrefixesExtend(parent, extra) then Err(PrefixNotNarrower)
    else Normalise(p, RawMerge(parent, extra))
  }

  // ---- Canonical form keeps the meaning -----------------------------------

  lemma SortKeepsIn(l: seq<Scalar>)
    ensures forall s :: In(s, SortScalars(l)) <==> In(s, l)
  {
    SortMembers(l, ScalarKey);
  }

  lemma NormaliseListsKeeps(p: Platform, m: Option<map<Text, seq<Scalar>>>, args: Args)
    requires NormaliseLists(p, m).Ok?
    ensures var n := NormaliseLists(p, m).value;
            && Entries(n).Keys == Entries(m).Keys
            && (ForbiddenOk(Entries(n), args) <==> ForbiddenOk(Entries(m), args))
            && (AllowedOk(Entries(n), args) <==> AllowedOk(Entries(m), args))
  {
    var n := NormaliseLists(p, m).value;
    forall f | f in Entries(m)
      ensures forall s :: In(s, Entries(n)[f]) <==> In(s, Entries(m)[f])
    {
      SortKeepsIn(m.value[f]);
    }
  }

  lemma NormaliseRequiredKeeps(p: Platform, names: Option<seq<Text>>, args: Args)
    requires NormaliseRequired(p, names).Ok?
    ensures RequiredOk(NameList(NormaliseRequired(p, names).value), args) <==> RequiredOk(NameList(names), args)
  {
    SortMembers(NameList(names), Key16);
  }

  /** Some field of the combination is missing from the call. */
  predicate ComboBroken(c: seq<Text>, args: Args) {
    exists f :: f in c && f !in args
  }

  lemma SortComboKeeps(c: seq<Text>, key: Text -> seq<int>, args: Args)
    ensures ComboBroken(Sort(c, key), args) <==> ComboBroken(c, args)
  {
    SortMembers(c, key);
  }

  lemma CombosOkByIndex(combos: seq<seq<Text>>, args: Args)
    ensures CombosOk(combos, args) <==> forall i :: 0 <= i < |combos| ==> ComboBroken(combos[i], args)
  {
    if CombosOk(combos, args) {
      forall i | 0 <= i < |combos|
        ensures ComboBroken(combos[i], args)
      {
        assert combos[i] in combos;
      }
    }
  }

  lemma CombosOkOfMembers(a: seq<seq<Text>>, b: seq<seq<Text>>, args: Args)
    requires SameElements(a, b)
    ensures CombosOk(a, args) <==> CombosOk(b, args)
  {
  }

  lemma SortCombosKeeps(combos: seq<seq<Text>>, args: Args)
    ensures CombosOk(SortCombos(combos), args) <==> CombosOk(combos, args)
  {
    var sorted := seq(|combos|, i requires 0 <= i < |combos| => SortNames(combos[i]));
    forall i | 0 <= i < |combos|
      ensures ComboBroken(sorted[i], args) <==> ComboBroken(combos[i], args)
    {
      SortComboKeeps(combos[i], Key16, args);
    }
    CombosOkByIndex(combos, args);
    CombosOkByIndex(sorted, args);
    SortMembers(sorted, ComboKey);
    CombosOkOfMembers(SortCombos(combos), sorted, args);
  }

  lemma NormaliseCombosKeeps(combos: Option<seq<seq<Text>>>, args: Args)
    requires NormaliseCombos(combos).Ok?
    ensures CombosOk(ComboList(NormaliseCombos(combos).value), args) <==> CombosOk(ComboList(combos), args)
  {
    SortCombosKeeps(ComboList(combos), args);
  }

  lemma NormaliseParts(p: Platform, c: Constraints)
    requires Normalise(p, c).Ok?
    ensures c.unknownKinds == Normalise(p, c).value.unknownKinds == {}
    ensures NormaliseLists(p, c.forbiddenValues) == Ok(Normalise(p, c).value.forbiddenValues)
    ensures NormaliseLists(p, c.allowedValues) == Ok(Normalise(p, c).value.allowedValues)
    ensures Normalise(p, c).value.startsWith == c.startsWith
    ensures Normalise(p, c).value.maxValue == c.maxValue && Normalise(p, c).value.minValue == c.minValue
    ensures NormaliseRequired(p, c.requiredPresent) == Ok(Normalise(p, c).value.requiredPresent)
    ensures NormaliseCombos(c.forbiddenCombinations) == Ok(Normalise(p, c).value.forbiddenCombinations)
  {
  }

  /** Normalising never changes which calls a block admits. */
  lemma NormaliseKeepsMeaning(p: Platform, c: Constraints, args: Args)
    requires Normalise(p, c).Ok?
    ensures Accepts(p, Normalise(p, c).value, args) <==> Accepts(p, c, args)
  {
    var n := Normalise(p, c).value;
    NormaliseParts(p, c);
    assert ForbiddenOk(Entries(n.forbiddenValues), args) <==> ForbiddenOk(Entries(c.forbiddenValues), args) by {
      NormaliseListsKeeps(p, c.forbiddenValues, args);
    }
    assert AllowedOk(Entries(n.allowedValues), args) <==> AllowedOk(Entries(c.allowedValues), args) by {
      NormaliseListsKeeps(p, c.allowedValues, args);
    }
    assert RequiredOk(NameList(n.requiredPresent), args) <==> RequiredOk(NameList(c.requiredPresent), args) by {
      NormaliseRequiredKeeps(p, c.requiredPresent, args);
    }
    NormaliseCombosKeeps(c.forbiddenCombinations, args);
  }

  // ---- The merge is the meet ----------------------------------------------

  lemma PyEqSymmetric(a: Scalar, b: Scalar)
    ensures PyEq(a, b) <==> PyEq(b, a)
  {
  }

  lemma InIntersect(s: Scalar, a: seq<Scalar>, b: seq<Scalar>)
    ensures In(s, Intersect(a, b)) ==> In(s, a) && In(s, b)
  {
  }

  /**
   No `True` in one list meets a `1` in the other (or `False` a `0`) without the two
   lists also sharing a member of that value.
   */
  predicate NoBoolClash(a: seq<Scalar>, b: seq<Scalar>) {
    forall x, y :: x in a && y in b && PyEq(x, y) ==> exists z :: z in a && z in b && PyEq(x, z)
  }

  /**
   Intersecting two whitelists admits exactly the arguments both admit, if and only if
   the lists do not mix a bool with its integer.
   */
  lemma IntersectIsMeetIff(a: seq<Scalar>, b: seq<Scalar>)
    requires MembersOk(a) && MembersOk(b)
    ensures (forall v :: AllowsAll(Intersect(a, b), v) <==> AllowsAll(a, v) && AllowsAll(b, v))
            <==> NoBoolClash(a, b)
  {
    if NoBoolClash(a, b) {
      forall v
        ensures AllowsAll(Intersect(a, b), v) <==> AllowsAll(a, v) && AllowsAll(b, v)
      {
        AllowsIntersect(a, b, v);
      }
    } else {
      var x, y :| x in a && y in b && PyEq(x, y) && !exists z :: z in a && z in b && PyEq(x, z);
      var v := Leaf(x);
      PyEqSymmetric(x, y);
      assert Flatten(v) == [x];
      assert AllowsAll(a, v) && AllowsAll(b, v);
      assert !In(x, Intersect(a, b));
    }
  }

  /** `True` and `1` are different list members to the merge, and one value to the checkers. */
  lemma TrueMeetsOne()
    ensures var one, yes, v := [Int(1)], [Bool(true)], Leaf(Int(1));
            AllowsAll(one, v) && AllowsAll(yes, v) && !AllowsAll(Intersect(one, yes), v)
  {
    var one, yes, v := [Int(1)], [Bool(true)], Leaf(Int(1));
    assert Flatten(v) == [Int(1)] && Int(1) in one && Bool(true) in yes;
    assert Keep(one, yes) == Keep(one[1..], yes) == [];
  }

  lemma AllowsIntersect(a: seq<Scalar>, b: seq<Scalar>, v: Value)
    ensures AllowsAll(Intersect(a, b), v) ==> AllowsAll(a, v) && AllowsAll(b, v)
    ensures NoBoolClash(a, b) && AllowsAll(a, v) && AllowsAll(b, v) ==> AllowsAll(Intersect(a, b), v)
  {
    forall s | s in Flatten(v)
      ensures In(s, Intersect(a, b)) ==> In(s, a) && In(s, b)
      ensures NoBoolClash(a, b) && In(s, a) && In(s, b) ==> In(s, Intersect(a, b))
    {
      InIntersect(s, a, b);
      if NoBoolClash(a, b) && In(s, a) && In(s, b) {
        var x :| x in a && PyEq(s, x);
        var y :| y in b && PyEq(s, y);
        assert PyEq(x, y);
        var z :| z in a && z in b && PyEq(x, z);
        assert PyEq(s, z);
      }
    }
  }

  lemma MergedForbiddenMeaning(parent: Constraints, extra: Constraints, args: Args)
    ensures ForbiddenOk(Entries(MergedForbidden(parent, extra)), args) <==>
            ForbiddenOk(Entries(parent.forbiddenValues), args) && ForbiddenOk(Entries(extra.forbiddenValues), args)
  {
  }

  /** No shared whitelist mixes a bool with its integer. */
  predicate NoClash(parent: Constraints, extra: Constraints) {
    forall f :: f in Entries(parent.allowedValues) && f in Entries(extra.allowedValues) ==>
      NoBoolClash(parent.allowedValues.value[f], extra.allowedValues.value[f])
  }

  lemma MergedAllowedMeaning(parent: Constraints, extra: Constraints, args: Args)
    ensures var p, e := Entries(parent.allowedValues), Entries(extra.allowedValues);
            var m := Entries(MergedAllowed(parent, extra));
            && (AllowedOk(m, args) ==> AllowedOk(p, args) && AllowedOk(e, args))
            && (NoClash(parent, extra) && AllowedOk(p, args) && AllowedOk(e, args) ==> AllowedOk(m, args))
  {
    var p, e := Entries(parent.allowedValues), Entries(extra.allowedValues);
    var m := Entries(MergedAllowed(parent, extra));
    assert m.Keys == p.Keys + e.Keys;
    forall f | f in m && f in args
      ensures AllowsAll(m[f], args[f]) ==>
                (f in p ==> AllowsAll(p[f], args[f])) && (f in e ==> AllowsAll(e[f], args[f]))
      ensures (f in p && f in e ==> NoBoolClash(p[f], e[f])) &&
              (f in p ==> AllowsAll(p[f], args[f])) && (f in e ==> AllowsAll(e[f], args[f])) ==>
                AllowsAll(m[f], args[f])
    {
      if f in e {
        if f in p {
          AllowsIntersect(p[f], e[f], args[f]);
        } else {
          assert m[f] == Dedup(e[f]);
        }
      }
    }
  }

  lemma MergedBoundsMeaning(parent: Constraints, extra: Constraints, args: Args)
    ensures MaxOk(Entries(MergedMax(parent, extra)), args) <==>
            MaxOk(Entries(parent.maxValue), args) && MaxOk(Entries(extra.maxValue), args)
    ensures MinOk(Entries(MergedMin(parent, extra)), args) <==>
            MinOk(Entries(parent.minValue), args) && MinOk(Entries(extra.minValue), args)
  {
    MergedMaxMeaning(parent, extra, args);
    MergedMinMeaning(parent, extra, args);
  }

  lemma MergedMaxMeaning(parent: Constraints, extra: Constraints, args: Args)
    ensures MaxOk(Entries(MergedMax(parent, extra)), args) <==>
            MaxOk(Entries(parent.maxValue), args) && MaxOk(Entries(extra.maxValue), args)
  {
  }

  lemma MergedMinMeaning(parent: Constraints, extra: Constraints, args: Args)
    ensures MinOk(Entries(MergedMin(parent, extra)), args) <==>
            MinOk(Entries(parent.minValue), args) && MinOk(Entries(extra.minValue), args)
  {
  }

  lemma MergedRequiredMeaning(parent: Constraints, extra: Constraints, args: Args)
    ensures RequiredOk(NameList(MergedRequired(parent, extra)), args) <==>
            RequiredOk(NameList(parent.requiredPresent), args) && RequiredOk(NameList(extra.requiredPresent), args)
  {
    if extra.requiredPresent.Some? {
      var p, e := NameList(parent.requiredPresent), extra.requiredPresent.value;
      SortMembers(Dedup(p + e), CodePointKey);
      assert forall f :: f in NameList(MergedRequired(parent, extra)) <==> f in p || f in e;
    }
  }

  lemma CombosOkConcat(a: seq<seq<Text>>, b: seq<seq<Text>>, args: Args)
    ensures CombosOk(a + b, args) <==> CombosOk(a, args) && CombosOk(b, args)
  {
    assert forall c :: c in a + b <==> c in a || c in b;
  }

  lemma MergedCombosMeaning(parent: Constraints, extra: Constraints, args: Args)
    ensures CombosOk(ComboList(MergedCombos(parent, extra)), args) <==>
            CombosOk(ComboList(parent.forbiddenCombinations), args) &&
            CombosOk(ComboList(extra.forbiddenCombinations), args)
  {
    if extra.forbiddenCombinations.Some? {
      var p, e := ComboList(parent.forbiddenCombinations), extra.forbiddenCombinations.value;
      var sorted := SortedCombos(p + e);
      CombosOkOfMembers(Dedup(sorted), sorted, args);
      forall i | 0 <= i < |p + e|
        ensures ComboBroken(sorted[i], args) <==> ComboBroken((p + e)[i], args)
      {
        SortComboKeeps((p + e)[i], CodePointKey, args);
      }
      CombosOkByIndex(sorted, args);
      CombosOkByIndex(p + e, args);
      CombosOkConcat(p, e, args);
    }
  }

  // ---- Prefixes -----------------------------------------------------------

  /** Every URI the narrower prefix admits, the wider prefix admits. */
  predicate CanonicallyExtends(p: Platform, wide: Text, narrow: Text) {
    var w, n := CanonicalFileUri(p, wide), CanonicalFileUri(p, narrow);
    w.Some? && n.Some? ==> HasPrefix(n.value, w.value)
  }

  /**
   The narrowing test compares raw strings but the checker compares canonical file
   paths. For a raw extension, admitted values are included if and only if the prefix
   is not a file URI or its canonical form is also a prefix of the other's.
   */
  lemma PrefixNarrowsIff(p: Platform, wide: Text, narrow: Text)
    requires HasPrefix(narrow, wide)
    ensures (forall v: Value :: PrefixMatches(p, narrow, v) ==> PrefixMatches(p, wide, v))
            <==> CanonicallyExtends(p, wide, narrow)
  {
    if CanonicallyExtends(p, wide, narrow) {
      forall v: Value | PrefixMatches(p, narrow, v)
        ensures PrefixMatches(p, wide, v)
      {
        PrefixNarrows(p, wide, narrow, v.scalar.text);
      }
    } else {
      var v := Leaf(Str(narrow));
      assert PrefixMatches(p, narrow, v);
      assert !PrefixMatches(p, wide, v);
    }
  }

  lemma PrefixNarrows(p: Platform, wide: Text, narrow: Text, value: Text)
    requires HasPrefix(narrow, wide) && CanonicallyExtends(p, wide, narrow)
    requires StartsWith(p, narrow, value)
    ensures StartsWith(p, wide, value)
  {
  }

  /** Every file prefix of both blocks that the extra block replaces is narrowed canonically. */
  predicate PrefixesCanonical(p: Platform, wide: Constraints, narrow: Constraints) {
    forall f :: f in Entries(wide.startsWith) && f in Entries(narrow.startsWith) ==>
      CanonicallyExtends(p, wide.startsWith.value[f], narrow.startsWith.value[f])
  }

  /** No prefix is a file URI that canonicalisation would change. */
  predicate PrefixesSelfCanonical(p: Platform, c: Constraints) {
    forall f :: f in Entries(c.startsWith) ==>
      var u := CanonicalFileUri(p, c.startsWith.value[f]);
      u.Some? ==> u.value == c.startsWith.value[f]
  }

  /** Policies written in canonical form are always safe to narrow. */
  lemma SelfCanonicalSuffices(p: Platform, wide: Constraints, narrow: Constraints)
    requires PrefixesExtend(wide, narrow)
    requires PrefixesSelfCanonical(p, wide) && PrefixesSelfCanonical(p, narrow)
    ensures PrefixesCanonical(p, wide, narrow)
  {
  }

  lemma MergedPrefixesMeaning(p: Platform, parent: Constraints, extra: Constraints, args: Args)
    requires PrefixesExtend(parent, extra)
    ensures var m := Entries(MergedPrefixes(parent, extra));
            && (PrefixesOk(p, m, args) ==> PrefixesOk(p, Entries(extra.startsWith), args))
            && (PrefixesOk(p, Entries(parent.startsWith), args) && PrefixesOk(p, Entries(extra.startsWith), args)
                ==> PrefixesOk(p, m, args))
            && (PrefixesCanonical(p, parent, extra) && PrefixesOk(p, m, args)
                ==> PrefixesOk(p, Entries(parent.startsWith), args))
  {
    var par, ext := Entries(parent.startsWith), Entries(extra.startsWith);
    var m := Entries(MergedPrefixes(parent, extra));
    assert m.Keys == par.Keys + ext.Keys;
    assert forall f :: f in m ==> m[f] == if f in ext then ext[f] else par[f];
    if PrefixesCanonical(p, parent, extra) && PrefixesOk(p, m, args) {
      forall f | f in par
        ensures f in args && PrefixMatches(p, par[f], args[f])
      {
        assert f in m;
        if f in ext {
          PrefixNarrows(p, par[f], ext[f], args[f].scalar.text);
        }
      }
    }
  }

  /** The block without the kinds outside the registry; a block with any of them admits nothing. */
  function KnownKinds(c: Constraints): Constraints {
    c.(unknownKinds := {})
  }

  /**
   A call the merged block admits satisfies every known kind of the extra block, so the extra
   block admits it exactly when it names no unknown kind: the merge drops those.
   */
  lemma MergeNarrowsExtra(p: Platform, parent: Constraints, extra: Constraints, args: Args)
    requires Merge(p, parent, extra).Ok?
    requires Accepts(p, Merge(p, parent, extra).value, args)
    ensures Accepts(p, KnownKinds(extra), args)
    ensures Accepts(p, extra, args) <==> extra.unknownKinds == {}
  {
    MergeMeaning(p, parent, extra, args);
  }

  /**
   A call the merged block admits is refused by the parent only for a prefix that was
   extended as a raw string, and never when every file prefix narrows canonically.
   */
  lemma MergeNarrowsParent(p: Platform, parent: Constraints, extra: Constraints, args: Args)
    requires Merge(p, parent, extra).Ok?
    requires Accepts(p, Merge(p, parent, extra).value, args)
    ensures Accepts(p, parent, args) <==> PrefixesOk(p, Entries(parent.startsWith), args)
    ensures PrefixesCanonical(p, parent, extra) ==> Accepts(p, parent, args)
  {
    MergeMeaning(p, parent, extra, args);
  }

  /**
   The merge is the meet. A call both blocks admit is refused by the merge only where a
   whitelist intersection lost a bool that met its integer, never when none does.
   */
  lemma MergeIsMeet(p: Platform, parent: Constraints, extra: Constraints, args: Args)
    requires Merge(p, parent, extra).Ok?
    ensures Accepts(p, parent, args) && Accepts(p, extra, args) ==>
              (Accepts(p, Merge(p, parent, extra).value, args)
               <==> AllowedOk(Entries(MergedAllowed(parent, extra)), args))
    ensures extra.unknownKinds == {} && PrefixesCanonical(p, parent, extra) && NoClash(parent, extra) ==>
              (Accepts(p, Merge(p, parent, extra).value, args) <==> Accepts(p, parent, args) && Accepts(p, extra, args))
  {
    MergeMeaning(p, parent, extra, args);
  }

  lemma MergeMeaning(p: Platform, parent: Constraints, extra: Constraints, args: Args)
    requires Merge(p, parent, extra).Ok?
    ensures var m := Merge(p, parent, extra).value;
            && (Accepts(p, m, args) ==> Accepts(p, KnownKinds(extra), args))
            && (Accepts(p, m, args) ==> (Accepts(p, parent, args) <==> PrefixesOk(p, Entries(parent.startsWith), args)))
            && (Accepts(p, m, args) && PrefixesCanonical(p, parent, extra) ==> Accepts(p, parent, args))
            && (Accepts(p, parent, args) && Accepts(p, extra, args) ==>
                  (Accepts(p, m, args) <==> AllowedOk(Entries(MergedAllowed(parent, extra)), args)))
            && (Accepts(p, parent, args) && Accepts(p, extra, args) && NoClash(parent, extra) ==> Accepts(p, m, args))
  {
    hide ForbiddenOk, AllowedOk, PrefixesOk, MaxOk, MinOk, RequiredOk, CombosOk, PrefixesCanonical, NoClash,
      MergedForbidden, MergedAllowed, MergedPrefixes, MergedMax, MergedMin, MergedRequired, MergedCombos;
    NormaliseKeepsMeaning(p, RawMerge(parent, extra), args);
    MergedForbiddenMeaning(parent, extra, args);
    MergedAllowedMeaning(parent, extra, args);
    MergedPrefixesMeaning(p, parent, extra, args);
    MergedBoundsMeaning(parent, extra, args);
    MergedRequiredMeaning(parent, extra, args);
    MergedCombosMeaning(parent, extra, args);
  }
}
