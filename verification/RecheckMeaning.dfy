/** What each verdict of the re-check says about the block and the disclosed fields, and when it is the gate's. */
module RecheckMeaning {
  import opened Basics
  import opened Canon
  import opened Values
  import opened Policy
  import opened PolicyMeaning
  import opened Recheck

  /** The kinds that are evaluated field by field. */
  predicate PerField(kind: Kind) {
    kind in {AllowedValues, ForbiddenValues, MaxValue, MinValue, StartsWithKind}
  }

  /** The spec carries a block of this kind. */
  ghost predicate Carries(s: Spec, kind: Kind) {
    match kind
    case AllowedValues => s.allowedValues.Some?
    case ForbiddenValues => s.forbiddenValues.Some?
    case MaxValue => s.maxValue.Some?
    case MinValue => s.minValue.Some?
    case StartsWithKind => s.startsWith.Some?
    case _ => false
  }

  /** The block of this kind has an entry for the field. */
  ghost predicate Touches(s: Spec, kind: Kind, f: Text) {
    Carries(s, kind) &&
    match kind
    case AllowedValues => f in s.allowedValues.value
    case ForbiddenValues => f in s.forbiddenValues.value
    case MaxValue => f in s.maxValue.value
    case MinValue => f in s.minValue.value
    case StartsWithKind => f in s.startsWith.value
    case _ => false
  }

  /** Python refuses to compare the value with an integer. */
  ghost predicate Incomparable(v: Value) {
    v.Items? || v.Fields? || v == Leaf(Null) || exists t :: v == Leaf(Str(t))
  }

  /** The number a leaf stands for is at most the bound: a bool is 0 or 1, and minus infinity is below everything. */
  ghost predicate Below(v: Value, bound: int) {
    || (exists n :: v == Leaf(Int(n)) && n <= bound)
    || (exists r :: v == Leaf(Float(r)) && r <= bound as real)
    || (v == Leaf(Bool(true)) && 1 <= bound) || (v == Leaf(Bool(false)) && 0 <= bound)
    || v == Leaf(Infinity(true))
  }

  ghost predicate Over(v: Value, bound: int) {
    || (exists n :: v == Leaf(Int(n)) && bound <= n)
    || (exists r :: v == Leaf(Float(r)) && bound as real <= r)
    || (v == Leaf(Bool(true)) && bound <= 1) || (v == Leaf(Bool(false)) && bound <= 0)
    || v == Leaf(Infinity(false))
  }

  /** One of the members is the value; a container is none of them. */
  ghost predicate IsMember(v: Value, members: seq<Scalar>) {
    exists x, i :: v == Leaf(x) && 0 <= i < |members| && PyEq(x, members[i])
  }

  /** It starts with one of the listed prefixes, or with some character of a prefix given as one string. */
  ghost predicate Starts(v: Value, prefixes: Prefixes) {
    exists text :: v == Leaf(Str(text)) && StartsText(text, prefixes)
  }

  ghost predicate StartsText(text: Text, prefixes: Prefixes) {
    if prefixes.ListOf? then exists i :: 0 <= i < |prefixes.prefixes| && prefixes.prefixes[i] <= text
    else exists i :: 0 <= i < |prefixes.text| && [prefixes.text[i]] <= text
  }

  /** The disclosed value passes the field's entry. */
  ghost predicate Conforms(s: Spec, kind: Kind, f: Text, v: Value)
    requires Touches(s, kind, f)
  {
    match kind
    case AllowedValues => IsMember(v, s.allowedValues.value[f])
    case ForbiddenValues => !IsMember(v, s.forbiddenValues.value[f])
    case MaxValue => Below(v, s.maxValue.value[f])
    case MinValue => Over(v, s.minValue.value[f])
    case StartsWithKind => Starts(v, s.startsWith.value[f])
    case _ => true
  }

  /** Comparing the disclosed value raises. */
  ghost predicate Refuses(s: Spec, d: Args, kind: Kind, f: Text) {
    Touches(s, kind, f) && kind in {MaxValue, MinValue} && f in d && Incomparable(d[f])
  }

  ghost predicate BreaksEntry(s: Spec, d: Args, kind: Kind, f: Text) {
    Touches(s, kind, f) && f in d && !Conforms(s, kind, f, d[f])
  }

  ghost predicate HidesField(s: Spec, d: Args, kind: Kind, f: Text) {
    Touches(s, kind, f) && f !in d
  }

  /** The verdict on one kind, as the block and the disclosed fields give it. */
  ghost predicate Says(s: Spec, d: Args, kind: Kind, verdict: Option<Verdict>) {
    && (verdict == None <==> !Carries(s, kind))
    && (verdict == Some(Violated) <==> exists f :: BreaksEntry(s, d, kind, f))
    && (verdict == Some(Unknown) <==>
          (exists f :: HidesField(s, d, kind, f)) && !exists f :: BreaksEntry(s, d, kind, f))
    && (verdict == Some(Satisfied) <==>
          Carries(s, kind) && forall f :: Touches(s, kind, f) ==> f in d && Conforms(s, kind, f, d[f]))
  }

  function VerdictOf(v: Verdicts, kind: Kind): Option<Verdict> {
    match kind
    case AllowedValues => v.allowedValues
    case ForbiddenValues => v.forbiddenValues
    case MaxValue => v.maxValue
    case MinValue => v.minValue
    case StartsWithKind => v.startsWith
    case RequiredPresent => v.requiredPresent
    case ForbiddenCombinations => v.forbiddenCombinations
    case Unmodelled => None
  }

  // ---- One field ----------------------------------------------------------

  lemma MemberTri(v: Value, members: seq<Scalar>)
    ensures AllowedTri(v, members) == if IsMember(v, members) then Pass else Fail
    ensures ForbiddenTri(v, members) == if IsMember(v, members) then Fail else Pass
  {
    if ValueIn(v, members) {
      var m :| m in members && PyEq(v.scalar, m);
      var i :| 0 <= i < |members| && members[i] == m;
      assert v == Leaf(v.scalar) && PyEq(v.scalar, members[i]);
    }
  }

  lemma BoundTri(v: Value, bound: int)
    ensures AtMostBound(v, bound) == if Incomparable(v) then Raises else if Below(v, bound) then Pass else Fail
    ensures AtLeastBound(v, bound) == if Incomparable(v) then Raises else if Over(v, bound) then Pass else Fail
  {
  }

  lemma StartsTextIff(text: Text, prefixes: Prefixes)
    ensures SomePrefix(text, prefixes) <==> StartsText(text, prefixes)
  {
    if prefixes.OneString? {
      if i :| 0 <= i < |prefixes.text| && [prefixes.text[i]] <= text {
        assert text[0] == prefixes.text[i];
      }
      if text != [] && text[0] in prefixes.text {
        var i :| 0 <= i < |prefixes.text| && prefixes.text[i] == text[0];
        assert [prefixes.text[i]] <= text;
      }
    } else {
      var list := prefixes.prefixes;
      if p :| p in list && HasPrefix(text, p) {
        var i :| 0 <= i < |list| && list[i] == p;
        assert list[i] <= text;
      }
      if i :| 0 <= i < |list| && list[i] <= text {
        assert HasPrefix(text, list[i]);
      }
    }
  }

  lemma StartsTri(v: Value, prefixes: Prefixes)
    ensures PrefixTri(v, prefixes) == if Starts(v, prefixes) then Pass else Fail
  {
    if v.Leaf? && v.scalar.Str? {
      StartsTextIff(v.scalar.text, prefixes);
      assert v == Leaf(Str(v.scalar.text));
    }
    hide StartsText, SomePrefix;
  }

  // ---- One kind -----------------------------------------------------------

  /** The readings are those of the entries. */
  ghost predicate ReadsEntries<C(!new)>(s: Spec, d: Args, kind: Kind, m: map<Text, C>, tri: (Value, C) -> Tri) {
    && (forall f :: Touches(s, kind, f) <==> f in m)
    && forall f :: f in m && f in d ==>
         tri(d[f], m[f]) == if Refuses(s, d, kind, f) then Raises
                            else if Conforms(s, kind, f, d[f]) then Pass else Fail
  }

  lemma AnyRaises<C(!new)>(s: Spec, d: Args, kind: Kind, m: map<Text, C>, tri: (Value, C) -> Tri)
    requires ReadsEntries(s, d, kind, m, tri)
    ensures AnyField(m, d, tri, Raises) <==> exists f :: Refuses(s, d, kind, f)
  {
    hide Conforms, Touches, Carries, Incomparable;
    if AnyField(m, d, tri, Raises) {
      var f :| f in m && FieldTri(m, d, tri, f) == Raises;
      assert Refuses(s, d, kind, f);
    }
    if f :| Refuses(s, d, kind, f) {
      assert FieldTri(m, d, tri, f) == Raises;
    }
  }

  lemma AnyFails<C(!new)>(s: Spec, d: Args, kind: Kind, m: map<Text, C>, tri: (Value, C) -> Tri)
    requires ReadsEntries(s, d, kind, m, tri) && !AnyField(m, d, tri, Raises)
    ensures AnyField(m, d, tri, Fail) <==> exists f :: BreaksEntry(s, d, kind, f)
  {
    AnyRaises(s, d, kind, m, tri);
    hide Conforms, Touches, Carries, Refuses;
    if AnyField(m, d, tri, Fail) {
      var f :| f in m && FieldTri(m, d, tri, f) == Fail;
      assert BreaksEntry(s, d, kind, f);
    }
    if f :| BreaksEntry(s, d, kind, f) {
      assert !Refuses(s, d, kind, f);
      assert FieldTri(m, d, tri, f) == Fail;
    }
  }

  lemma AnyHidden<C(!new)>(s: Spec, d: Args, kind: Kind, m: map<Text, C>, tri: (Value, C) -> Tri)
    requires ReadsEntries(s, d, kind, m, tri)
    ensures AnyField(m, d, tri, Hidden) <==> exists f :: HidesField(s, d, kind, f)
  {
    hide Conforms, Touches, Carries, Refuses;
    if AnyField(m, d, tri, Hidden) {
      var f :| f in m && FieldTri(m, d, tri, f) == Hidden;
      assert HidesField(s, d, kind, f);
    }
    if f :| HidesField(s, d, kind, f) {
      assert FieldTri(m, d, tri, f) == Hidden;
    }
  }

  lemma FoldSays<C(!new)>(s: Spec, d: Args, kind: Kind, m: Option<map<Text, C>>, tri: (Value, C) -> Tri)
    requires m.Some? <==> Carries(s, kind)
    requires m.Some? ==> ReadsEntries(s, d, kind, m.value, tri)
    ensures KindVerdict(m, d, tri).Err? <==> exists f :: Refuses(s, d, kind, f)
    ensures KindVerdict(m, d, tri).Ok? ==> Says(s, d, kind, KindVerdict(m, d, tri).value)
  {
    if m.Some? {
      AnyRaises(s, d, kind, m.value, tri);
      AnyHidden(s, d, kind, m.value, tri);
      if !AnyField(m.value, d, tri, Raises) {
        AnyFails(s, d, kind, m.value, tri);
      }
      hide AnyField, ReadsEntries, Conforms, Touches, Carries;
      SatisfiedIff(s, d, kind);
    } else {
      hide Conforms;
      assert forall f :: !Touches(s, kind, f);
    }
  }

  lemma SatisfiedIff(s: Spec, d: Args, kind: Kind)
    ensures (forall f :: Touches(s, kind, f) ==> f in d && Conforms(s, kind, f, d[f])) <==>
            (forall f :: !BreaksEntry(s, d, kind, f)) && forall f :: !HidesField(s, d, kind, f)
  {
    hide Conforms, Touches;
    if (forall f :: !BreaksEntry(s, d, kind, f)) && forall f :: !HidesField(s, d, kind, f) {
      forall f | Touches(s, kind, f) ensures f in d && Conforms(s, kind, f, d[f]) {
        assert !HidesField(s, d, kind, f) && !BreaksEntry(s, d, kind, f);
      }
    }
  }

  /** Some disclosed value cannot be compared with its bound. */
  ghost predicate Raised(s: Spec, d: Args) {
    exists kind, f :: Refuses(s, d, kind, f)
  }

  lemma KindsSay(s: Spec, d: Args)
    ensures KindVerdict(s.allowedValues, d, AllowedTri).Ok? && KindVerdict(s.forbiddenValues, d, ForbiddenTri).Ok?
    ensures KindVerdict(s.startsWith, d, PrefixTri).Ok?
    ensures Says(s, d, AllowedValues, KindVerdict(s.allowedValues, d, AllowedTri).value)
    ensures Says(s, d, ForbiddenValues, KindVerdict(s.forbiddenValues, d, ForbiddenTri).value)
    ensures Says(s, d, StartsWithKind, KindVerdict(s.startsWith, d, PrefixTri).value)
  {
    forall v, c ensures AllowedTri(v, c) == (if IsMember(v, c) then Pass else Fail)
                        && ForbiddenTri(v, c) == if IsMember(v, c) then Fail else Pass
    {
      MemberTri(v, c);
    }
    forall v, c ensures PrefixTri(v, c) == if Starts(v, c) then Pass else Fail { StartsTri(v, c); }
    hide AllowedTri, ForbiddenTri, PrefixTri, IsMember, Starts, Says, KindVerdict;
    FoldSays(s, d, AllowedValues, s.allowedValues, AllowedTri);
    FoldSays(s, d, ForbiddenValues, s.forbiddenValues, ForbiddenTri);
    FoldSays(s, d, StartsWithKind, s.startsWith, PrefixTri);
    assert forall kind, f :: Refuses(s, d, kind, f) ==> kind in {MaxValue, MinValue};
  }

  lemma BoundsSay(s: Spec, d: Args)
    ensures var upper := KindVerdict(s.maxValue, d, AtMostBound);
            && (upper.Err? <==> exists f :: Refuses(s, d, MaxValue, f))
            && (upper.Ok? ==> Says(s, d, MaxValue, upper.value))
    ensures var lower := KindVerdict(s.minValue, d, AtLeastBound);
            && (lower.Err? <==> exists f :: Refuses(s, d, MinValue, f))
            && (lower.Ok? ==> Says(s, d, MinValue, lower.value))
  {
    forall v, c ensures AtMostBound(v, c) == if Incomparable(v) then Raises else if Below(v, c) then Pass else Fail {
      BoundTri(v, c);
    }
    forall v, c ensures AtLeastBound(v, c) == if Incomparable(v) then Raises else if Over(v, c) then Pass else Fail {
      BoundTri(v, c);
    }
    hide AtMostBound, AtLeastBound, Incomparable, Below, Over, Says, KindVerdict;
    FoldSays(s, d, MaxValue, s.maxValue, AtMostBound);
    FoldSays(s, d, MinValue, s.minValue, AtLeastBound);
  }

  /** The re-check raises exactly on an incomparable value, and otherwise says of each kind what the fields show. */
  lemma FieldVerdictsIff(s: Spec, d: Args)
    ensures Recheck.Recheck(s, d).Err? <==> Raised(s, d)
    ensures Recheck.Recheck(s, d).Ok? ==>
              forall kind :: PerField(kind) ==> Says(s, d, kind, VerdictOf(Recheck.Recheck(s, d).value, kind))
  {
    KindsSay(s, d);
    BoundsSay(s, d);
    assert forall kind, f :: Refuses(s, d, kind, f) ==> kind in {MaxValue, MinValue};
    hide Says, KindVerdict, Refuses, RequiredVerdict, CombosVerdict;
  }

  // ---- Names and combinations ---------------------------------------------

  /** The value is one Python treats as false. */
  ghost predicate IsFalsy(v: Value) {
    v in {Leaf(Str([])), Leaf(Int(0)), Leaf(Bool(false)), Leaf(Float(0.0)), Leaf(Null), Items([]), Fields([])}
  }

  /** A required name is confirmed or open; never violated. */
  lemma RequiredIff(s: Spec, d: Args)
    requires Recheck.Recheck(s, d).Ok?
    ensures var names := NameList(s.requiredPresent);
            var verdict := Recheck.Recheck(s, d).value.requiredPresent;
            && (verdict == None <==> names == [])
            && (verdict == Some(Satisfied) <==> names != [] && forall f :: f in names ==> f in d)
            && (verdict == Some(Unknown) <==> exists f :: f in names && f !in d)
            && verdict != Some(Violated)
  {
  }

  /** Every field of the combination is disclosed and none is falsy. */
  ghost predicate AllTrue(combo: seq<Text>, d: Args) {
    forall f :: f in combo ==> f in d && !IsFalsy(d[f])
  }

  lemma ComboIff(combo: seq<Text>, d: Args)
    ensures ComboVerdict(combo, d) == Violated <==> AllTrue(combo, d)
    ensures ComboVerdict(combo, d) == Unknown <==> exists f :: f in combo && f !in d
  {
    forall v ensures Truthy(v) <==> !IsFalsy(v) {}
    hide Truthy, IsFalsy;
  }

  /** A combination is violated when all its fields are there and true, and settled only when all are disclosed. */
  lemma CombosIff(s: Spec, d: Args)
    requires Recheck.Recheck(s, d).Ok?
    ensures var combos := ComboList(s.forbiddenCombinations);
            var verdict := Recheck.Recheck(s, d).value.forbiddenCombinations;
            && (verdict == None <==> combos == [])
            && (verdict == Some(Violated) <==> exists combo :: combo in combos && AllTrue(combo, d))
            && (verdict == Some(Unknown) <==>
                  && (exists combo, f :: combo in combos && f in combo && f !in d)
                  && !exists combo :: combo in combos && AllTrue(combo, d))
            && (verdict == Some(Satisfied) <==>
                  && combos != []
                  && forall combo :: combo in combos ==>
                       (forall f :: f in combo ==> f in d) && exists f :: f in combo && IsFalsy(d[f]))
  {
    forall combo
      ensures ComboVerdict(combo, d) == Violated <==> AllTrue(combo, d)
      ensures ComboVerdict(combo, d) == Unknown <==> exists f :: f in combo && f !in d
    {
      ComboIff(combo, d);
    }
    hide ComboVerdict, IsFalsy, KindVerdict, RequiredVerdict;
  }

  // ---- The gate's verdict -------------------------------------------------

  /** The spec a verifier reads off a capability's block. */
  ghost predicate SpecOf(c: Constraints, s: Spec) {
    && s.allowedValues == c.allowedValues && s.forbiddenValues == c.forbiddenValues
    && s.maxValue == c.maxValue && s.minValue == c.minValue
    && s.requiredPresent == c.requiredPresent && s.forbiddenCombinations == c.forbiddenCombinations
    && (s.startsWith.Some? <==> c.startsWith.Some?)
    && (s.startsWith.Some? ==>
          && s.startsWith.value.Keys == c.startsWith.value.Keys
          && forall f :: f in c.startsWith.value ==> s.startsWith.value[f] == OneString(c.startsWith.value[f]))
  }

  /** Every field of the kind is disclosed, with a value on which the two readings agree. */
  ghost predicate ReadAlike(c: Constraints, args: Args, kind: Kind) {
    match kind
    case Unmodelled => false
    case AllowedValues =>
      forall f :: f in Entries(c.allowedValues) ==>
        && MembersOk(c.allowedValues.value[f]) && f in args
        && (args[f].Leaf? || Flatten(args[f]) == [] || exists x :: x in Flatten(args[f]) && !Nameable(x))
    case ForbiddenValues =>
      forall f :: f in Entries(c.forbiddenValues) ==>
        && MembersOk(c.forbiddenValues.value[f]) && f in args
        && (args[f].Leaf? || forall x :: x in Flatten(args[f]) ==> !Nameable(x))
    case StartsWithKind => forall f :: f in Entries(c.startsWith) ==> f in args && |c.startsWith.value[f]| == 1
    case MaxValue => forall f :: f in Entries(c.maxValue) ==> f in args && ANumber(args[f])
    case MinValue => forall f :: f in Entries(c.minValue) ==> f in args && ANumber(args[f])
    case RequiredPresent => true
    case ForbiddenCombinations =>
      forall combo :: combo in ComboList(c.forbiddenCombinations) ==>
        (exists f :: f in combo && f !in args) || AllTrue(combo, args)
  }

  ghost predicate ANumber(v: Value) {
    v.Leaf? && (IsNumber(v.scalar) || v.scalar.NaN?)
  }

  /** A kind that says something: a present block, or a list that is not empty. */
  ghost predicate Stated(c: Constraints, kind: Kind) {
    match kind
    case Unmodelled => false
    case AllowedValues => c.allowedValues.Some?
    case ForbiddenValues => c.forbiddenValues.Some?
    case StartsWithKind => c.startsWith.Some?
    case MaxValue => c.maxValue.Some?
    case MinValue => c.minValue.Some?
    case RequiredPresent => NameList(c.requiredPresent) != []
    case ForbiddenCombinations => ComboList(c.forbiddenCombinations) != []
  }

  lemma EntriesAlike(p: Platform, c: Constraints, args: Args, s: Spec, kind: Kind)
    requires SpecOf(c, s) && PerField(kind) && Stated(c, kind) && ReadAlike(c, args, kind)
    ensures (forall f :: Touches(s, kind, f) ==> f in args && Conforms(s, kind, f, args[f])) <==>
            Meets(p, c, args, kind)
  {
    hide Meets, IsMember, Below, Over, Starts, MembersOk, Nameable, AllowsAll, ForbidsNone, PrefixMatches, AtMost,
      AtLeast, CheckConstraints;
    CheckersMeaning(p, c, args);
    match kind
    case AllowedValues =>
      forall f | f in c.allowedValues.value
        ensures IsMember(args[f], c.allowedValues.value[f]) <==> AllowsAll(c.allowedValues.value[f], args[f])
      {
        AllowedAgreesIff(args[f]);
        MemberTri(args[f], c.allowedValues.value[f]);
      }
    case ForbiddenValues =>
      forall f | f in c.forbiddenValues.value
        ensures !IsMember(args[f], c.forbiddenValues.value[f]) <==> ForbidsNone(c.forbiddenValues.value[f], args[f])
      {
        ForbiddenAgreesIff(args[f]);
        MemberTri(args[f], c.forbiddenValues.value[f]);
      }
    case StartsWithKind =>
      forall f | f in c.startsWith.value
        ensures Starts(args[f], s.startsWith.value[f]) <==> PrefixMatches(p, c.startsWith.value[f], args[f])
      {
        OneStringAgreesIff(p, c.startsWith.value[f]);
        StartsTri(args[f], s.startsWith.value[f]);
      }
    case MaxValue =>
      forall f | f in c.maxValue.value
        ensures Below(args[f], c.maxValue.value[f]) <==> AtMost(c.maxValue.value[f], args[f])
      {
        BoundsAgreeIff(args[f]);
        BoundTri(args[f], c.maxValue.value[f]);
      }
    case MinValue =>
      forall f | f in c.minValue.value
        ensures Over(args[f], c.minValue.value[f]) <==> AtLeast(c.minValue.value[f], args[f])
      {
        BoundsAgreeIff(args[f]);
        BoundTri(args[f], c.minValue.value[f]);
      }
    case _ =>
  }

  /**
   Where the single readings agree the verdict is the gate's answer on that kind. A name that is missing stays
   UNKNOWN, never VIOLATED, and a combination with an absent field UNKNOWN, never SATISFIED.
   */
  lemma GateVerdict(p: Platform, c: Constraints, args: Args, s: Spec, kind: Kind)
    requires SpecOf(c, s) && Stated(c, kind) && ReadAlike(c, args, kind) && Recheck.Recheck(s, args).Ok?
    ensures var verdict := VerdictOf(Recheck.Recheck(s, args).value, kind);
            && (kind != ForbiddenCombinations ==> (verdict == Some(Satisfied) <==> Meets(p, c, args, kind)))
            && (kind != RequiredPresent ==> (verdict == Some(Violated) <==> !Meets(p, c, args, kind)))
  {
    FieldVerdictsIff(s, args);
    if PerField(kind) {
      EntriesAlike(p, c, args, s, kind);
      SatisfiedIff(s, args, kind);
      AllShown(c, args, s, kind);
      hide Touches, Conforms, ReadAlike, Meets, Recheck.Recheck;
    } else if kind == RequiredPresent {
      RequiredIff(s, args);
      hide Recheck.Recheck;
    } else {
      CombosIff(s, args);
      hide Recheck.Recheck, IsFalsy;
    }
  }

  lemma AllShown(c: Constraints, args: Args, s: Spec, kind: Kind)
    requires SpecOf(c, s) && PerField(kind) && Stated(c, kind) && ReadAlike(c, args, kind)
    ensures Carries(s, kind) && forall f :: !HidesField(s, args, kind, f)
  {
    hide MembersOk, Nameable;
  }
}
