/** What the narrowing merge asks of its two blocks, over their fields and members, and what it refuses first. */
module MergeMeaning {
  import opened Basics
  import opened Order
  import opened Canon
  import opened Values
  import opened Policy
  import opened Narrowing
  import opened Absorb

  /** The fields of either map. */
  ghost function EitherNames<V>(a: Option<map<Text, V>>, b: Option<map<Text, V>>): set<Text> {
    (if a.Some? then a.value.Keys else {}) + (if b.Some? then b.value.Keys else {})
  }

  /** No empty name, and no two that agree after normalisation. */
  ghost predicate Apart(p: Platform, names: set<Text>) {
    [] !in names && forall k, l :: k in names && l in names && k != l ==> p.nfc(k) != p.nfc(l)
  }

  ghost predicate Encodable(t: Text) {
    forall i :: 0 <= i < |t| ==> t[i] < 0xD800 || 0xDFFF < t[i]
  }

  /** An entry that has a place in the canonical order. */
  ghost predicate Orderable(s: Scalar) {
    (exists n :: s == Int(n)) || s in {Bool(true), Bool(false)} || exists t :: s == Str(t) && Encodable(t)
  }

  ghost predicate AllOrderable(m: Option<map<Text, seq<Scalar>>>) {
    m.Some? ==> forall f, s :: f in m.value && s in m.value[f] ==> Orderable(s)
  }

  /** A field both whitelists name keeps only what both list, so only that need be orderable. */
  ghost predicate KeptOrderable(mine: Option<map<Text, seq<Scalar>>>, theirs: Option<map<Text, seq<Scalar>>>) {
    mine.Some? ==> forall f, s :: f in mine.value && s in mine.value[f] ==>
                     Orderable(s) || (theirs.Some? && f in theirs.value && s !in theirs.value[f])
  }

  ghost predicate NamesIn(combos: Option<seq<seq<Text>>>) {
    combos.Some? ==> forall c, n :: c in combos.value && n in c ==> n != [] && Encodable(n)
  }

  const MERGE_STAGES := 11

  /** What each step of the merge asks of the blocks, in order. */
  ghost predicate MergeAsks(p: Platform, parent: Constraints, extra: Constraints, stage: nat) {
    match stage
    case 0 =>
      parent.startsWith.Some? && extra.startsWith.Some? ==>
        forall f :: f in parent.startsWith.value && f in extra.startsWith.value ==>
                      parent.startsWith.value[f] <= extra.startsWith.value[f]
    case 1 => parent.unknownKinds == {}
    case 2 => Apart(p, EitherNames(parent.forbiddenValues, extra.forbiddenValues))
    case 3 => AllOrderable(parent.forbiddenValues) && AllOrderable(extra.forbiddenValues)
    case 4 => Apart(p, EitherNames(parent.allowedValues, extra.allowedValues))
    case 5 =>
      && KeptOrderable(parent.allowedValues, extra.allowedValues)
      && KeptOrderable(extra.allowedValues, parent.allowedValues)
    case 6 => Apart(p, EitherNames(parent.startsWith, extra.startsWith))
    case 7 => Apart(p, EitherNames(parent.maxValue, extra.maxValue))
    case 8 => Apart(p, EitherNames(parent.minValue, extra.minValue))
    case 9 =>
      var names := set n | n in NameList(parent.requiredPresent) + NameList(extra.requiredPresent);
      Apart(p, names) && forall n :: n in names ==> Encodable(n)
    case 10 => NamesIn(parent.forbiddenCombinations) && NamesIn(extra.forbiddenCombinations)
    case _ => true
  }

  ghost function MergeComplaint(stage: nat): Refusal {
    match stage
    case 0 => PrefixNotNarrower
    case 1 => UnknownKind
    case 3 => BadMember
    case 5 => BadMember
    case _ => BadFieldName
  }

  /** Every step in front of this one grants. */
  ghost predicate MergeGrants(p: Platform, parent: Constraints, extra: Constraints, before: nat) {
    forall stage: nat :: stage < before ==> MergeAsks(p, parent, extra, stage)
  }

  // ---- One kind at a time -------------------------------------------------

  lemma OrderableIff(s: Scalar)
    ensures MemberOk(s) <==> Orderable(s)
  {
    if s.Bool? {
      assert s in {Bool(true), Bool(false)};
    }
  }

  lemma EncodableIff(t: Text)
    ensures Clean(t) <==> Encodable(t)
  {
  }

  lemma OverlayKeys<V>(parent: Option<map<Text, V>>, extra: Option<map<Text, V>>, both: (V, V) -> V, alone: V -> V)
    ensures Entries(Overlay(parent, extra, both, alone)).Keys == EitherNames(parent, extra)
  {
  }

  lemma ApartIff(p: Platform, names: set<Text>)
    ensures FieldKeysOk(p, names) <==> Apart(p, names)
  {
  }

  lemma ForbiddenStages(p: Platform, parent: Constraints, extra: Constraints)
    ensures var n := NormaliseLists(p, MergedForbidden(parent, extra));
            && (n.Ok? <==> MergeAsks(p, parent, extra, 2) && MergeAsks(p, parent, extra, 3))
            && (!MergeAsks(p, parent, extra, 2) ==> n == Err(BadFieldName))
            && (MergeAsks(p, parent, extra, 2) && !MergeAsks(p, parent, extra, 3) ==> n == Err(BadMember))
  {
    OverlayKeys(parent.forbiddenValues, extra.forbiddenValues, Union, Distinct);
    ApartIff(p, EitherNames(parent.forbiddenValues, extra.forbiddenValues));
    ForbiddenMembers(parent, extra);
  }

  lemma ForbiddenMembers(parent: Constraints, extra: Constraints)
    ensures (forall f :: f in Entries(MergedForbidden(parent, extra)) ==>
                           MembersOk(Entries(MergedForbidden(parent, extra))[f])) <==>
            AllOrderable(parent.forbiddenValues) && AllOrderable(extra.forbiddenValues)
  {
    forall s ensures MemberOk(s) <==> Orderable(s) { OrderableIff(s); }
    hide MemberOk, Orderable;
    var m := Entries(MergedForbidden(parent, extra));
    var a, b := Entries(parent.forbiddenValues), Entries(extra.forbiddenValues);
    assert m.Keys == a.Keys + b.Keys;
    forall f, s | f in m
      ensures s in m[f] <==> (f in a && s in a[f]) || (f in b && s in b[f])
    {
    }
  }

  lemma AllowedStages(p: Platform, parent: Constraints, extra: Constraints)
    ensures var n := NormaliseLists(p, MergedAllowed(parent, extra));
            && (n.Ok? <==> MergeAsks(p, parent, extra, 4) && MergeAsks(p, parent, extra, 5))
            && (!MergeAsks(p, parent, extra, 4) ==> n == Err(BadFieldName))
            && (MergeAsks(p, parent, extra, 4) && !MergeAsks(p, parent, extra, 5) ==> n == Err(BadMember))
  {
    OverlayKeys(parent.allowedValues, extra.allowedValues, Intersect, Distinct);
    ApartIff(p, EitherNames(parent.allowedValues, extra.allowedValues));
    AllowedMembers(parent, extra);
  }

  lemma AllowedMembers(parent: Constraints, extra: Constraints)
    ensures (forall f :: f in Entries(MergedAllowed(parent, extra)) ==>
                           MembersOk(Entries(MergedAllowed(parent, extra))[f])) <==>
            && KeptOrderable(parent.allowedValues, extra.allowedValues)
            && KeptOrderable(extra.allowedValues, parent.allowedValues)
  {
    forall s ensures MemberOk(s) <==> Orderable(s) { OrderableIff(s); }
    hide MemberOk, Orderable;
    var m := Entries(MergedAllowed(parent, extra));
    var a, b := Entries(parent.allowedValues), Entries(extra.allowedValues);
    assert m.Keys == a.Keys + b.Keys;
    forall f, s | f in m
      ensures s in m[f] <==> (f in a || f in b) && (f in a ==> s in a[f]) && (f in b ==> s in b[f])
    {
    }
  }

  lemma FieldStage<V>(p: Platform, m: Option<map<Text, V>>)
    ensures if Apart(p, Entries(m).Keys) then NormaliseFields(p, m).Ok? else NormaliseFields(p, m) == Err(BadFieldName)
  {
    ApartIff(p, Entries(m).Keys);
  }

  lemma FieldStages(p: Platform, parent: Constraints, extra: Constraints)
    ensures var n := NormaliseFields(p, MergedPrefixes(parent, extra));
            if MergeAsks(p, parent, extra, 6) then n.Ok? else n == Err(BadFieldName)
    ensures var n := NormaliseFields(p, MergedMax(parent, extra));
            if MergeAsks(p, parent, extra, 7) then n.Ok? else n == Err(BadFieldName)
    ensures var n := NormaliseFields(p, MergedMin(parent, extra));
            if MergeAsks(p, parent, extra, 8) then n.Ok? else n == Err(BadFieldName)
  {
    OverlayKeys(parent.startsWith, extra.startsWith, Latter, Itself);
    OverlayKeys(parent.maxValue, extra.maxValue, Smaller, Itself);
    OverlayKeys(parent.minValue, extra.minValue, Larger, Itself);
    FieldStage(p, MergedPrefixes(parent, extra));
    FieldStage(p, MergedMax(parent, extra));
    FieldStage(p, MergedMin(parent, extra));
    hide NormaliseFields, Apart, Overlay, EitherNames;
  }

  lemma NamesIff(p: Platform, list: seq<Text>, names: set<Text>)
    requires forall n :: n in list <==> n in names
    ensures NameListOk(p, list) <==> Apart(p, names) && forall n :: n in names ==> Encodable(n)
  {
    forall t: Text ensures Clean(t) <==> Encodable(t) { EncodableIff(t); }
    hide Clean, Encodable;
  }

  lemma RequiredNames(parent: Constraints, extra: Constraints)
    ensures forall n :: n in NameList(MergedRequired(parent, extra)) <==>
                        n in NameList(parent.requiredPresent) + NameList(extra.requiredPresent)
  {
    var both := Dedup(NameList(parent.requiredPresent) + NameList(extra.requiredPresent));
    SortMembers(both, CodePointKey);
    hide Sort;
  }

  lemma RequiredStage(p: Platform, parent: Constraints, extra: Constraints)
    ensures var n := NormaliseRequired(p, MergedRequired(parent, extra));
            if MergeAsks(p, parent, extra, 9) then n.Ok? else n == Err(BadFieldName)
  {
    var names := set n | n in NameList(parent.requiredPresent) + NameList(extra.requiredPresent);
    var list := NameList(MergedRequired(parent, extra));
    RequiredNames(parent, extra);
    NamesIff(p, list, names);
    NamesIff(p, [], {});
    hide MergedRequired, NameListOk, Apart, Encodable, SortNames;
    if MergedRequired(parent, extra).None? {
      assert list == [] && names == {};
    }
  }

  lemma CombosStage(p: Platform, parent: Constraints, extra: Constraints)
    ensures var n := NormaliseCombos(MergedCombos(parent, extra));
            if MergeAsks(p, parent, extra, 10) then n.Ok? else n == Err(BadFieldName)
  {
    ComboNames(parent.forbiddenCombinations);
    ComboNames(extra.forbiddenCombinations);
    MergedComboNames(parent, extra);
    NormaliseCombosIff(MergedCombos(parent, extra));
    hide ComboOk, NamesIn, MergedCombos, NormaliseCombos;
  }

  lemma NormaliseCombosIff(combos: Option<seq<seq<Text>>>)
    ensures if forall c :: c in ComboList(combos) ==> ComboOk(c) then NormaliseCombos(combos).Ok?
            else NormaliseCombos(combos) == Err(BadFieldName)
  {
    hide ComboOk, SortCombos;
  }

  lemma MergedComboNames(parent: Constraints, extra: Constraints)
    ensures (forall c :: c in ComboList(MergedCombos(parent, extra)) ==> ComboOk(c)) <==>
            && (forall c :: c in ComboList(parent.forbiddenCombinations) ==> ComboOk(c))
            && forall c :: c in ComboList(extra.forbiddenCombinations) ==> ComboOk(c)
  {
    var a, b := ComboList(parent.forbiddenCombinations), ComboList(extra.forbiddenCombinations);
    SortedNames(a + b);
    hide ComboOk, SortedCombos;
    if extra.forbiddenCombinations.Some? {
      assert ComboList(MergedCombos(parent, extra)) == Dedup(SortedCombos(a + b));
    } else {
      assert b == [];
    }
  }

  lemma ComboNames(combos: Option<seq<seq<Text>>>)
    ensures NamesIn(combos) <==> forall c :: c in ComboList(combos) ==> ComboOk(c)
  {
    forall t: Text ensures Clean(t) <==> Encodable(t) { EncodableIff(t); }
    hide Clean, Encodable;
    if !NamesIn(combos) {
      var c, n :| c in combos.value && n in c && !(n != [] && Encodable(n));
      assert !ComboOk(c);
    }
  }

  lemma SortedNames(combos: seq<seq<Text>>)
    ensures (forall c :: c in SortedCombos(combos) ==> ComboOk(c)) <==> (forall c :: c in combos ==> ComboOk(c))
  {
    forall i | 0 <= i < |combos|
      ensures ComboOk(SortedCombos(combos)[i]) <==> ComboOk(combos[i])
    {
      SortMembers(combos[i], CodePointKey);
    }
    hide ComboOk, SortedCombo;
    forall c | c in combos ensures exists d :: d in SortedCombos(combos) && (ComboOk(d) <==> ComboOk(c)) {
      var i :| 0 <= i < |combos| && combos[i] == c;
      assert SortedCombos(combos)[i] in SortedCombos(combos);
    }
  }

  // ---- The merge ----------------------------------------------------------

  /** The merge succeeds if and only if every step grants. */
  lemma MergedIff(p: Platform, parent: Constraints, extra: Constraints)
    ensures Merge(p, parent, extra).Ok? <==> MergeGrants(p, parent, extra, MERGE_STAGES)
  {
    Steps(p, parent, extra);
    hide NormaliseLists, NormaliseFields, NormaliseRequired, NormaliseCombos, MergeAsks, PrefixesExtend;
    if Merge(p, parent, extra).Ok? {
      forall stage: nat | stage < MERGE_STAGES ensures MergeAsks(p, parent, extra, stage) {}
    } else {
      assert !(forall stage: nat | stage < MERGE_STAGES :: MergeAsks(p, parent, extra, stage));
    }
  }

  lemma Steps(p: Platform, parent: Constraints, extra: Constraints)
    ensures MergeAsks(p, parent, extra, 0) <==> PrefixesExtend(parent, extra)
    ensures MergeAsks(p, parent, extra, 1) <==> RawMerge(parent, extra).unknownKinds == {}
    ensures var n := NormaliseLists(p, MergedForbidden(parent, extra));
            && (n.Ok? <==> MergeAsks(p, parent, extra, 2) && MergeAsks(p, parent, extra, 3))
            && (!MergeAsks(p, parent, extra, 2) ==> n == Err(BadFieldName))
            && (MergeAsks(p, parent, extra, 2) && !MergeAsks(p, parent, extra, 3) ==> n == Err(BadMember))
    ensures var n := NormaliseLists(p, MergedAllowed(parent, extra));
            && (n.Ok? <==> MergeAsks(p, parent, extra, 4) && MergeAsks(p, parent, extra, 5))
            && (!MergeAsks(p, parent, extra, 4) ==> n == Err(BadFieldName))
            && (MergeAsks(p, parent, extra, 4) && !MergeAsks(p, parent, extra, 5) ==> n == Err(BadMember))
    ensures var n := NormaliseFields(p, MergedPrefixes(parent, extra));
            if MergeAsks(p, parent, extra, 6) then n.Ok? else n == Err(BadFieldName)
    ensures var n := NormaliseFields(p, MergedMax(parent, extra));
            if MergeAsks(p, parent, extra, 7) then n.Ok? else n == Err(BadFieldName)
    ensures var n := NormaliseFields(p, MergedMin(parent, extra));
            if MergeAsks(p, parent, extra, 8) then n.Ok? else n == Err(BadFieldName)
    ensures var n := NormaliseRequired(p, MergedRequired(parent, extra));
            if MergeAsks(p, parent, extra, 9) then n.Ok? else n == Err(BadFieldName)
    ensures var n := NormaliseCombos(MergedCombos(parent, extra));
            if MergeAsks(p, parent, extra, 10) then n.Ok? else n == Err(BadFieldName)
  {
    ForbiddenStages(p, parent, extra);
    AllowedStages(p, parent, extra);
    FieldStages(p, parent, extra);
    RequiredStage(p, parent, extra);
    CombosStage(p, parent, extra);
    hide NormaliseLists, NormaliseFields, NormaliseRequired, NormaliseCombos, Overlay, MergedRequired, MergedCombos;
  }

  /** Otherwise it gives the error of the first step that does not. */
  lemma MergeRefusedFor(p: Platform, parent: Constraints, extra: Constraints, stage: nat)
    requires stage < MERGE_STAGES && MergeGrants(p, parent, extra, stage) && !MergeAsks(p, parent, extra, stage)
    ensures Merge(p, parent, extra) == Err(MergeComplaint(stage))
  {
    Steps(p, parent, extra);
    hide NormaliseLists, NormaliseFields, NormaliseRequired, NormaliseCombos, MergeAsks, PrefixesExtend;
    assert stage > 0 ==> MergeAsks(p, parent, extra, 0);
    assert stage > 1 ==> MergeAsks(p, parent, extra, 1);
    assert stage > 2 ==> MergeAsks(p, parent, extra, 2);
    assert stage > 3 ==> MergeAsks(p, parent, extra, 3);
    assert stage > 4 ==> MergeAsks(p, parent, extra, 4);
    assert stage > 5 ==> MergeAsks(p, parent, extra, 5);
    assert stage > 6 ==> MergeAsks(p, parent, extra, 6);
    assert stage > 7 ==> MergeAsks(p, parent, extra, 7);
    assert stage > 8 ==> MergeAsks(p, parent, extra, 8);
    assert stage > 9 ==> MergeAsks(p, parent, extra, 9);
  }

  /** A block has a canonical form if and only if it can be merged with one that says nothing. */
  lemma CanonicalIff(p: Platform, c: Constraints)
    ensures Normalise(p, c).Ok? <==> MergeGrants(p, c, NO_CONSTRAINTS, MERGE_STAGES)
  {
    MergedIff(p, c, NO_CONSTRAINTS);
    assert RawMerge(c, NO_CONSTRAINTS) == c;
    hide Normalise, MergeGrants;
  }
}
