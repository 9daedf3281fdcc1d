/** The narrowing merge as it runs: loops that fill the merged block field by field. */
module MergeLoops {
  import opened Basics
  import opened Order
  import opened Canon
  import opened Values
  import opened Policy
  import opened Narrowing

  lemma DedupStep(s: seq<Scalar>, x: Scalar)
    ensures Dedup(s + [x]) == if x in s then Dedup(s) else Dedup(s) + [x]
  {
  }

  /** `_union_values`: first occurrences over both lists. */
  method UnionValues(a: seq<Scalar>, b: seq<Scalar>) returns (seen: seq<Scalar>)
    ensures seen == Union(a, b)
  {
    seen := [];
    var all := a + b;
    assert all[..0] == [] && Dedup<Scalar>([]) == [];
    hide Dedup;
    for i := 0 to |all|
      invariant seen == Dedup(all[..i])
    {
      assert all[..i + 1] == all[..i] + [all[i]];
      DedupStep(all[..i], all[i]);
      if all[i] !in seen {
        seen := seen + [all[i]];
      }
    }
    assert all[..|all|] == all;
  }

  lemma {:induction false} KeepStep(a: seq<Scalar>, b: seq<Scalar>, x: Scalar)
    ensures Keep(a + [x], b) == Keep(a, b) + (if x in b then [x] else [])
  {
    if a == [] {
      assert a + [x] == [x];
    } else {
      assert (a + [x])[1..] == a[1..] + [x];
      KeepStep(a[1..], b, x);
      var head, last := if a[0] in b then [a[0]] else [], if x in b then [x] else [];
      assert head + (Keep(a[1..], b) + last) == head + Keep(a[1..], b) + last;
    }
  }

  /** `_intersect_values`: first occurrences in `a` of the values also in `b`. */
  method IntersectValues(a: seq<Scalar>, b: seq<Scalar>) returns (seen: seq<Scalar>)
    ensures seen == Intersect(a, b)
  {
    seen := [];
    for i := 0 to |a|
      invariant seen == Intersect(a[..i], b)
    {
      assert a[..i + 1] == a[..i] + [a[i]];
      KeepStep(a[..i], b, a[i]);
      if a[i] in b {
        DedupStep(Keep(a[..i], b), a[i]);
        if a[i] !in seen {
          seen := seen + [a[i]];
        }
      } else {
        assert Keep(a[..i], b) + [] == Keep(a[..i], b);
      }
    }
    assert a[..|a|] == a;
  }

  /** The entries of `e` already handled when the keys in `todo` remain. */
  function Done<V>(e: map<Text, V>, todo: set<Text>): map<Text, V> {
    map f | f in e && f !in todo :: e[f]
  }

  lemma OverlayStep<V>(parent: Option<map<Text, V>>, e: map<Text, V>, todo: set<Text>, f: Text,
                       both: (V, V) -> V, alone: V -> V)
    requires todo <= e.Keys && f in todo
    ensures var p := Entries(parent);
            var before := Entries(Overlay(parent, Some(Done(e, todo)), both, alone));
            && (f in before <==> f in p) && (f in p ==> before[f] == p[f])
            && Overlay(parent, Some(Done(e, todo - {f})), both, alone)
               == Some(before[f := if f in p then both(p[f], e[f]) else alone(e[f])])
  {
    var p := Entries(parent);
    var before := Entries(Overlay(parent, Some(Done(e, todo)), both, alone));
    var after := Overlay(parent, Some(Done(e, todo - {f})), both, alone);
    assert f in Done(e, todo - {f});
    assert after.Some?;
    assert Done(e, todo - {f}) == Done(e, todo)[f := e[f]];
    assert after.value == before[f := if f in p then both(p[f], e[f]) else alone(e[f])];
  }

  lemma OverlayStart<V>(parent: Option<map<Text, V>>, extra: Option<map<Text, V>>,
                        both: (V, V) -> V, alone: V -> V)
    ensures Overlay(parent, Some(Done(Entries(extra), Entries(extra).Keys)), both, alone) == parent
    ensures Overlay(parent, Some(Done(Entries(extra), {})), both, alone) == Overlay(parent, extra, both, alone)
  {
    var e := Entries(extra);
    assert Done(e, e.Keys) == map[];
    assert Done(e, {}) == e;
  }

  method MergeForbidden(parent: Constraints, extra: Constraints) returns (out: Option<map<Text, seq<Scalar>>>)
    ensures out == MergedForbidden(parent, extra)
  {
    out := parent.forbiddenValues;
    var e := Entries(extra.forbiddenValues);
    var todo := e.Keys;
    OverlayStart(parent.forbiddenValues, extra.forbiddenValues, Union, Distinct);
    while todo != {}
      invariant todo <= e.Keys
      invariant out == Overlay(parent.forbiddenValues, Some(Done(e, todo)), Union, Distinct)
      decreases todo
    {
      var f :| f in todo;
      OverlayStep(parent.forbiddenValues, e, todo, f, Union, Distinct);
      var existing := if f in Entries(out) then Entries(out)[f] else [];
      var values := UnionValues(existing, e[f]);
      assert existing == [] ==> existing + e[f] == e[f];
      out := Some(Entries(out)[f := values]);
      todo := todo - {f};
    }
  }

  method MergeAllowed(parent: Constraints, extra: Constraints) returns (out: Option<map<Text, seq<Scalar>>>)
    ensures out == MergedAllowed(parent, extra)
  {
    out := parent.allowedValues;
    var e := Entries(extra.allowedValues);
    var todo := e.Keys;
    OverlayStart(parent.allowedValues, extra.allowedValues, Intersect, Distinct);
    while todo != {}
      invariant todo <= e.Keys
      invariant out == Overlay(parent.allowedValues, Some(Done(e, todo)), Intersect, Distinct)
      decreases todo
    {
      var f :| f in todo;
      OverlayStep(parent.allowedValues, e, todo, f, Intersect, Distinct);
      var values;
      if f in Entries(out) {
        values := IntersectValues(Entries(out)[f], e[f]);
      } else {
        values := UnionValues(e[f], []);
        assert e[f] + [] == e[f];
      }
      out := Some(Entries(out)[f := values]);
      todo := todo - {f};
    }
  }

  /** The `starts_with` loop with `_merge_starts_with`: refuses unless each prefix is extended. */
  method MergePrefixes(parent: Constraints, extra: Constraints) returns (out: Result<Option<map<Text, Text>>, Refusal>)
    ensures out == if PrefixesExtend(parent, extra) then Ok(MergedPrefixes(parent, extra))
                   else Err(PrefixNotNarrower)
  {
    var merged := parent.startsWith;
    var e := Entries(extra.startsWith);
    var todo := e.Keys;
    OverlayStart(parent.startsWith, extra.startsWith, Latter, Itself);
    while todo != {}
      invariant todo <= e.Keys
      invariant merged == Overlay(parent.startsWith, Some(Done(e, todo)), Latter, Itself)
      invariant forall f :: f in e && f !in todo && f in Entries(parent.startsWith) ==>
                  HasPrefix(e[f], parent.startsWith.value[f])
      decreases todo
    {
      var f :| f in todo;
      OverlayStep(parent.startsWith, e, todo, f, Latter, Itself);
      if f in Entries(merged) && !HasPrefix(e[f], Entries(merged)[f]) {
        return Err(PrefixNotNarrower);
      }
      merged := Some(Entries(merged)[f := e[f]]);
      todo := todo - {f};
    }
    return Ok(merged);
  }

  method MergeBounds(parent: Option<map<Text, int>>, extra: Option<map<Text, int>>, upper: bool)
    returns (out: Option<map<Text, int>>)
    ensures out == Overlay(parent, extra, if upper then Smaller else Larger, Itself)
  {
    out := parent;
    var e := Entries(extra);
    var todo := e.Keys;
    ghost var tighter := if upper then Smaller else Larger;
    OverlayStart(parent, extra, tighter, Itself);
    while todo != {}
      invariant todo <= e.Keys
      invariant out == Overlay(parent, Some(Done(e, todo)), tighter, Itself)
      decreases todo
    {
      var f :| f in todo;
      OverlayStep(parent, e, todo, f, tighter, Itself);
      var bound := e[f];
      if f in Entries(out) {
        var existing := Entries(out)[f];
        if (upper && existing <= bound) || (!upper && existing >= bound) {
          bound := existing;
        }
      }
      out := Some(Entries(out)[f := bound]);
      todo := todo - {f};
    }
  }

  /** `_merge_narrowing`. */
  method MergeNarrowing(p: Platform, parent: Constraints, extra: Constraints)
    returns (r: Result<Constraints, Refusal>)
    ensures r == Merge(p, parent, extra)
  {
    var out := parent;
    var forbidden := MergeForbidden(parent, extra);
    out := out.(forbiddenValues := forbidden);
    var allowed := MergeAllowed(parent, extra);
    out := out.(allowedValues := allowed);
    var prefixes := MergePrefixes(parent, extra);
    if prefixes.Err? {
      return Err(prefixes.error);
    }
    out := out.(startsWith := prefixes.value);
    var upper := MergeBounds(parent.maxValue, extra.maxValue, true);
    out := out.(maxValue := upper);
    var lower := MergeBounds(parent.minValue, extra.minValue, false);
    out := out.(minValue := lower);
    if extra.requiredPresent.Some? {
      var names := Dedup(NameList(out.requiredPresent) + extra.requiredPresent.value);
      out := out.(requiredPresent := Some(Sort(names, CodePointKey)));
    }
    if extra.forbiddenCombinations.Some? {
      var combos := SortedCombos(ComboList(out.forbiddenCombinations) + extra.forbiddenCombinations.value);
      out := out.(forbiddenCombinations := Some(Dedup(combos)));
    }
    return Normalise(p, out);
  }
}
