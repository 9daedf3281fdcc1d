/** What a constraint block says, kind by kind, over the scalars that occur in the arguments. */
module PolicyMeaning {
  import opened Basics
  import opened Canon
  import opened Values
  import opened Policy

  /** A number that is not a bool, at most the bound. */
  ghost predicate NumberUpTo(s: Scalar, bound: int) {
    (exists n :: s == Int(n) && n <= bound) || (exists r :: s == Float(r) && r <= bound as real)
  }

  ghost predicate NumberFrom(s: Scalar, bound: int) {
    (exists n :: s == Int(n) && bound <= n) || (exists r :: s == Float(r) && bound as real <= r)
  }

  /** Under a prefix: by canonical path when both are file URIs, otherwise as written. */
  ghost predicate Under(p: Platform, prefix: Text, text: Text) {
    if FILE_SCHEME <= prefix && FILE_SCHEME <= text
    then CanonicalFileUri(p, prefix).value <= CanonicalFileUri(p, text).value
    else prefix <= text
  }

  /** Some scalar occurs in the argument. */
  ghost predicate HoldsSomething(v: Value) {
    exists s :: Occurs(s, v)
  }

  ghost predicate Listed(s: Scalar, members: seq<Scalar>) {
    exists i :: 0 <= i < |members| && PyEq(s, members[i])
  }

  /** What one kind of the block demands of the arguments. */
  ghost predicate Meets(p: Platform, c: Constraints, args: Args, kind: Kind) {
    match kind
    case Unmodelled => c.unknownKinds == {}
    case ForbiddenValues =>
      c.forbiddenValues.Some? ==>
        forall f, s, bad ::
          f in c.forbiddenValues.value && f in args && Occurs(s, args[f]) && bad in c.forbiddenValues.value[f] ==>
            !PyEq(s, bad)
    case AllowedValues =>
      c.allowedValues.Some? ==>
        forall f :: f in c.allowedValues.value ==>
          && f in args && HoldsSomething(args[f])
          && forall s :: Occurs(s, args[f]) ==> Listed(s, c.allowedValues.value[f])
    case StartsWithKind =>
      c.startsWith.Some? ==>
        forall f :: f in c.startsWith.value ==>
          f in args && exists text :: args[f] == Leaf(Str(text)) && Under(p, c.startsWith.value[f], text)
    case MaxValue =>
      c.maxValue.Some? ==>
        forall f :: f in c.maxValue.value ==>
          && f in args && HoldsSomething(args[f])
          && forall s :: Occurs(s, args[f]) ==> NumberUpTo(s, c.maxValue.value[f])
    case MinValue =>
      c.minValue.Some? ==>
        forall f :: f in c.minValue.value ==>
          && f in args && HoldsSomething(args[f])
          && forall s :: Occurs(s, args[f]) ==> NumberFrom(s, c.minValue.value[f])
    case RequiredPresent => c.requiredPresent.Some? ==> forall f :: f in c.requiredPresent.value ==> f in args
    case ForbiddenCombinations =>
      c.forbiddenCombinations.Some? ==>
        forall combo :: combo in c.forbiddenCombinations.value ==> exists f :: f in combo && f !in args
  }

  /** The place of a kind in the gate's order. */
  function Place(kind: Kind): nat {
    match kind
    case Unmodelled => 0
    case ForbiddenValues => 1
    case AllowedValues => 2
    case StartsWithKind => 3
    case MaxValue => 4
    case MinValue => 5
    case RequiredPresent => 6
    case ForbiddenCombinations => 7
  }

  lemma FlattenedOccurs(v: Value)
    ensures forall s :: s in Flatten(v) <==> Occurs(s, v)
    ensures Flatten(v) != [] <==> HoldsSomething(v)
  {
    forall s
      ensures s in Flatten(v) <==> Occurs(s, v)
    {
      FlattenComplete(v, s);
    }
    if Flatten(v) != [] {
      assert Flatten(v)[0] in Flatten(v);
    }
  }

  lemma ForbidsMeaning(m: map<Text, seq<Scalar>>, args: Args)
    ensures ForbiddenOk(m, args) <==>
            forall f, s, bad :: f in m && f in args && Occurs(s, args[f]) && bad in m[f] ==> !PyEq(s, bad)
  {
    forall f | f in m && f in args
      ensures forall s :: s in Flatten(args[f]) <==> Occurs(s, args[f])
    {
      FlattenedOccurs(args[f]);
    }
  }

  lemma AllowsMeaning(m: map<Text, seq<Scalar>>, args: Args)
    ensures AllowedOk(m, args) <==>
            forall f :: f in m ==>
              f in args && HoldsSomething(args[f]) && forall s :: Occurs(s, args[f]) ==> Listed(s, m[f])
  {
    forall f | f in m && f in args
      ensures AllowsAll(m[f], args[f]) <==>
              HoldsSomething(args[f]) && forall s :: Occurs(s, args[f]) ==> Listed(s, m[f])
    {
      hide HoldsSomething, Listed, In;
      FlattenedOccurs(args[f]);
      forall s
        ensures In(s, m[f]) <==> Listed(s, m[f])
      {
        ListedIff(s, m[f]);
      }
    }
  }

  lemma ListedIff(s: Scalar, members: seq<Scalar>)
    ensures In(s, members) <==> Listed(s, members)
  {
  }

  lemma UnderIff(p: Platform, prefix: Text, text: Text)
    ensures StartsWith(p, prefix, text) <==> Under(p, prefix, text)
  {
  }

  lemma PrefixMeaning(p: Platform, m: map<Text, Text>, args: Args)
    ensures PrefixesOk(p, m, args) <==>
            forall f :: f in m ==> f in args && exists text :: args[f] == Leaf(Str(text)) && Under(p, m[f], text)
  {
    forall f | f in m && f in args
      ensures PrefixMatches(p, m[f], args[f]) <==> exists text :: args[f] == Leaf(Str(text)) && Under(p, m[f], text)
    {
      if args[f].Leaf? && args[f].scalar.Str? {
        UnderIff(p, m[f], args[f].scalar.text);
      }
    }
  }

  lemma NumberIff(s: Scalar, bound: int)
    ensures IsNumber(s) && Number(s).value <= bound as real <==> NumberUpTo(s, bound)
    ensures IsNumber(s) && bound as real <= Number(s).value <==> NumberFrom(s, bound)
  {
  }

  lemma BoundsMeaning(m: map<Text, int>, args: Args)
    ensures MaxOk(m, args) <==>
            forall f :: f in m ==>
              f in args && HoldsSomething(args[f]) && forall s :: Occurs(s, args[f]) ==> NumberUpTo(s, m[f])
    ensures MinOk(m, args) <==>
            forall f :: f in m ==>
              f in args && HoldsSomething(args[f]) && forall s :: Occurs(s, args[f]) ==> NumberFrom(s, m[f])
  {
    hide HoldsSomething, NumberUpTo, NumberFrom;
    forall f | f in m && f in args
      ensures AtMost(m[f], args[f]) <==>
              HoldsSomething(args[f]) && forall s :: Occurs(s, args[f]) ==> NumberUpTo(s, m[f])
      ensures AtLeast(m[f], args[f]) <==>
              HoldsSomething(args[f]) && forall s :: Occurs(s, args[f]) ==> NumberFrom(s, m[f])
    {
      FlattenedOccurs(args[f]);
      forall s
        ensures IsNumber(s) && Number(s).value <= m[f] as real <==> NumberUpTo(s, m[f])
        ensures IsNumber(s) && m[f] as real <= Number(s).value <==> NumberFrom(s, m[f])
      {
        NumberIff(s, m[f]);
      }
    }
  }

  /** The gate's checkers ask exactly what the kinds demand. */
  lemma CheckersMeaning(p: Platform, c: Constraints, args: Args)
    ensures ForbiddenOk(Entries(c.forbiddenValues), args) <==> Meets(p, c, args, ForbiddenValues)
    ensures AllowedOk(Entries(c.allowedValues), args) <==> Meets(p, c, args, AllowedValues)
    ensures PrefixesOk(p, Entries(c.startsWith), args) <==> Meets(p, c, args, StartsWithKind)
    ensures MaxOk(Entries(c.maxValue), args) <==> Meets(p, c, args, MaxValue)
    ensures MinOk(Entries(c.minValue), args) <==> Meets(p, c, args, MinValue)
    ensures RequiredOk(NameList(c.requiredPresent), args) <==> Meets(p, c, args, RequiredPresent)
    ensures CombosOk(ComboList(c.forbiddenCombinations), args) <==> Meets(p, c, args, ForbiddenCombinations)
  {
    hide ForbiddenOk, AllowedOk, PrefixesOk, MaxOk, MinOk, HoldsSomething, Listed, NumberUpTo, NumberFrom, Under;
    ForbidsMeaning(Entries(c.forbiddenValues), args);
    AllowsMeaning(Entries(c.allowedValues), args);
    PrefixMeaning(p, Entries(c.startsWith), args);
    BoundsMeaning(Entries(c.maxValue), args);
    BoundsMeaning(Entries(c.minValue), args);
  }

  /** A block admits a call if and only if every kind of it is met. */
  lemma AcceptsIffMet(p: Platform, c: Constraints, args: Args)
    ensures Accepts(p, c, args) <==> forall kind :: Meets(p, c, args, kind)
  {
    CheckersMeaning(p, c, args);
    hide ForbiddenOk, AllowedOk, PrefixesOk, MaxOk, MinOk, RequiredOk, CombosOk;
    assert Meets(p, c, args, Unmodelled) <==> c.unknownKinds == {};
    hide Meets;
    forall kind
      ensures Accepts(p, c, args) ==> Meets(p, c, args, kind)
    {
      match kind
      case Unmodelled =>
      case ForbiddenValues =>
      case AllowedValues =>
      case StartsWithKind =>
      case MaxValue =>
      case MinValue =>
      case RequiredPresent =>
      case ForbiddenCombinations =>
    }
  }

  /** A refusal names the first kind, in the gate's order, that is not met. */
  lemma RefusalNamesFirst(p: Platform, c: Constraints, args: Args, kind: Kind)
    ensures CheckConstraints(p, c, args) == Some(kind) <==>
            !Meets(p, c, args, kind) && forall k :: Place(k) < Place(kind) ==> Meets(p, c, args, k)
  {
    CheckersMeaning(p, c, args);
    hide ForbiddenOk, AllowedOk, PrefixesOk, MaxOk, MinOk, RequiredOk, CombosOk;
    assert Meets(p, c, args, Unmodelled) <==> c.unknownKinds == {};
    hide Meets;
  }
}
