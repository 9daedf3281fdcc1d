/** What an evidence chain must be, member by member, and what makes a component count. */
module EvidenceMeaning {
  import opened Basics
  import opened Canon
  import opened Epaec
  import opened EvidenceChain

  /** The component is of this type: an object with a text there that is not empty. */
  ghost predicate OfType(c: Component, t: Text) {
    t != [] && c.Component? && c.ctype == AText(t)
  }

  /** The answer of the verifier registered for the component's type, if there is evidence and a verifier. */
  ghost predicate Answered(v: Verifiers, c: Component, answer: Check) {
    exists t, e :: OfType(c, t) && c.evidence == Some(e) && t in v.byType && v.byType[t](e) == answer
  }

  /** Verified when its verifier vouches for it and for this action, invalid when that answers anything else. */
  lemma StatusIff(v: Verifiers, digest: Text, c: Component)
    ensures StatusOf(v, digest, c) == Verified <==> Answered(v, c, Checked(true, Some(digest)))
    ensures StatusOf(v, digest, c) == Invalid <==>
            exists answer :: answer != Checked(true, Some(digest)) && Answered(v, c, answer)
    ensures StatusOf(v, digest, c) == Unverified <==> forall answer :: !Answered(v, c, answer)
  {
    if TypedComponent(c) && c.evidence.Some? && c.ctype.text in v.byType {
      var t, e := c.ctype.text, c.evidence.value;
      assert OfType(c, t);
      assert Answered(v, c, v.byType[t](e));
    }
  }

  /** The component goes by this name: its type, or its label when that is not empty. */
  ghost predicate GoesBy(c: Component, n: Text) {
    n != [] && c.Component? && (c.ctype == AText(n) || c.tag == AText(n))
  }

  /** A name is satisfied when a component that goes by it is verified for this action. */
  lemma SatisfiedIff(v: Verifiers, digest: Text, components: seq<Component>, n: Text)
    ensures n in Satisfied(v, digest, components) <==>
            exists c :: c in components && GoesBy(c, n) && Answered(v, c, Checked(true, Some(digest)))
  {
    forall c ensures Counts(v, digest, c) <==> Answered(v, c, Checked(true, Some(digest)))
             ensures Counts(v, digest, c) ==> (n in NamesOf(c) <==> GoesBy(c, n))
    {
      StatusIff(v, digest, c);
    }
    hide Counts, Answered, NamesOf, GoesBy;
    if n in Satisfied(v, digest, components) {
      var c :| c in components && Counts(v, digest, c) && n in NamesOf(c);
      assert GoesBy(c, n);
    }
    if c :| c in components && GoesBy(c, n) && Answered(v, c, Checked(true, Some(digest))) {
      assert Counts(v, digest, c) && n in NamesOf(c);
    }
  }

  // ---- Structure ----------------------------------------------------------

  /** A complete component: typed, with evidence, its label a text if it has one. */
  ghost predicate Complete(c: Component) {
    && (exists t :: OfType(c, t))
    && c.evidence.Some? && (c.tag == Absent || exists t :: c.tag == AText(t))
  }

  ghost predicate SameType(c: Component, d: Component) {
    exists t :: OfType(c, t) && OfType(d, t)
  }

  /** What each structural check asks, in order. */
  ghost predicate Sound(v: Verifiers, c: Chain, check: nat) {
    match check
    case 0 => c.version == Some(Ascii("EP-AEC-v1"))
    case 1 => c.action.Some?
    case 2 => c.components.Some? && c.components.value != []
    case 3 =>
      c.components.Some? ==>
        && (forall i :: 0 <= i < |c.components.value| ==> Complete(c.components.value[i]))
        && forall i, k :: 0 <= i < k < |c.components.value| ==>
                            !SameType(c.components.value[i], c.components.value[k])
    case 4 =>
      exists text, i :: c.requirement == AText(text) && 0 <= i < |text| && !v.chars.isSpace(text[i])
    case 5 =>
      forall f :: f in c.fields ==>
        Ascii("@") <= f || f == Ascii("action") || f == Ascii("action_digest") || f == Ascii("components")
        || f == Ascii("requirement")
    case _ => true
  }

  const CHECKS := 6

  ghost predicate SoundBefore(v: Verifiers, c: Chain, check: nat) {
    forall k: nat :: k < check ==> Sound(v, c, k)
  }

  lemma ComponentsIff(components: seq<Component>)
    requires components != []
    ensures ComponentsOk(components) <==>
            && (forall i :: 0 <= i < |components| ==> Complete(components[i]))
            && forall i, k :: 0 <= i < k < |components| ==> !SameType(components[i], components[k])
  {
    forall c ensures TypedComponent(c) <==> exists t :: OfType(c, t) {
      TypedIff(c);
    }
    forall c ensures TypedComponent(c) && c.evidence.Some? && !c.tag.NotText? <==> Complete(c) {
      TypedIff(c);
      TagIff(c);
    }
    forall c, d | TypedComponent(c) && TypedComponent(d) ensures SameType(c, d) <==> TypeOf(c) == TypeOf(d) {
      SameTypeIff(c, d);
    }
    hide TypedComponent, Complete, SameType, OfType, TypeOf;
    if ComponentsOk(components) {
      forall i | 0 <= i < |components| ensures Complete(components[i]) {
        assert components[i] in components;
      }
      forall i, k | 0 <= i < k < |components| ensures !SameType(components[i], components[k]) {
        assert components[i] in components && components[k] in components;
      }
    }
  }

  lemma TypedIff(c: Component)
    ensures TypedComponent(c) <==> exists t :: OfType(c, t)
  {
    if TypedComponent(c) {
      assert OfType(c, c.ctype.text);
    }
  }

  lemma TagIff(c: Component)
    ensures c.Component? ==> (!c.tag.NotText? <==> c.tag == Absent || exists t :: c.tag == AText(t))
  {
    if c.Component? && c.tag.AText? {
      assert c.tag == AText(c.tag.text);
    }
  }

  lemma SameTypeIff(c: Component, d: Component)
    requires TypedComponent(c) && TypedComponent(d)
    ensures SameType(c, d) <==> TypeOf(c) == TypeOf(d)
  {
    assert OfType(c, c.ctype.text) && OfType(d, d.ctype.text);
  }

  lemma RequirementIff(v: Verifiers, c: Chain)
    ensures HasText(v.chars, c.requirement) <==> Sound(v, c, 4)
  {
  }

  lemma FieldsIff(v: Verifiers, c: Chain)
    ensures FieldsKnown(c.fields) <==> Sound(v, c, 5)
  {
    assert Ascii("@") == [0x40];
    assert Ascii("@version")[0] == 0x40;
    forall f | f in c.fields ensures Ascii("@") <= f <==> f != [] && f[0] == 0x40 {}
  }

  /** A chain is well formed if and only if every check passes. */
  lemma WellFormedIff(v: Verifiers, c: Chain)
    ensures WellFormed(v, c) <==> SoundBefore(v, c, CHECKS)
  {
    if c.components.Some? && c.components.value != [] {
      ComponentsIff(c.components.value);
    }
    RequirementIff(v, c);
    FieldsIff(v, c);
    hide HasText, FieldsKnown, Complete, SameType;
    if SoundBefore(v, c, CHECKS) {
      assert Sound(v, c, 0) && Sound(v, c, 1) && Sound(v, c, 2) && Sound(v, c, 3) && Sound(v, c, 4) && Sound(v, c, 5);
    }
  }

  // ---- Which error --------------------------------------------------------

  /** The components in front of position `i` are complete and of different types. */
  ghost predicate FineBefore(components: seq<Component>, i: nat)
    requires i <= |components|
  {
    && (forall k :: 0 <= k < i ==> Complete(components[k]))
    && forall k, l :: 0 <= k < l < i ==> !SameType(components[k], components[l])
  }

  /** The error of the component at position `i`: a type seen before, or anything else it lacks. */
  ghost predicate FaultOf(components: seq<Component>, i: nat, e: ChainError)
    requires i < |components|
  {
    if exists k :: 0 <= k < i && SameType(components[k], components[i]) then e == DuplicateComponentType
    else !Complete(components[i]) && e == BadComponent
  }

  /** The error of a check that fails first. */
  ghost predicate ErrorFor(c: Chain, check: nat, e: ChainError) {
    match check
    case 0 => e == BadVersion
    case 1 => e == BadAction
    case 2 => e == BadComponents
    case 3 =>
      c.components.Some? &&
      exists i :: 0 <= i < |c.components.value| && FineBefore(c.components.value, i)
                  && FaultOf(c.components.value, i, e)
    case 4 => e == BadRequirement
    case _ => e == UnknownChainField
  }

  lemma FaultIff(components: seq<Component>, i: nat)
    requires i < |components| && FineBefore(components, i)
    ensures FaultAt(components, i) == None <==> FineBefore(components, i + 1)
    ensures FaultAt(components, i).Some? ==> FaultOf(components, i, FaultAt(components, i).value)
  {
    forall c ensures TypedComponent(c) <==> exists t :: OfType(c, t) {
      TypedIff(c);
    }
    forall c ensures TypedComponent(c) && c.evidence.Some? && !c.tag.NotText? <==> Complete(c) {
      TypedIff(c);
      TagIff(c);
    }
    forall k | 0 <= k < i ensures SameType(components[k], components[i]) <==>
                                  TypedComponent(components[i]) && TypeOf(components[k]) == TypeOf(components[i])
    {
      assert Complete(components[k]);
      if TypedComponent(components[i]) {
        SameTypeIff(components[k], components[i]);
      }
    }
    hide TypedComponent, Complete, SameType, OfType, TypeOf;
  }

  lemma {:induction false} FirstFaultFrom(components: seq<Component>, i: nat)
    requires i <= |components| && FineBefore(components, i)
    ensures FirstFault(components, i) == None <==> FineBefore(components, |components|)
    ensures FirstFault(components, i).Some? ==>
              exists k :: 0 <= k < |components| && FineBefore(components, k)
                          && FaultOf(components, k, FirstFault(components, i).value)
    decreases |components| - i
  {
    if i < |components| {
      FaultIff(components, i);
      hide FaultAt, FaultOf, SameType, Complete;
      if FaultAt(components, i) == None {
        FirstFaultFrom(components, i + 1);
      } else {
        assert FaultOf(components, i, FirstFault(components, i).value);
        assert !FineBefore(components, |components|);
      }
    }
  }

  /** A malformed chain is denied with the error of the first check that fails. */
  lemma MalformedFor(v: Verifiers, c: Chain, check: nat)
    requires check < CHECKS && SoundBefore(v, c, check) && !Sound(v, c, check)
    ensures Malformation(v, c).Some? && ErrorFor(c, check, Malformation(v, c).value)
  {
    assert check > 0 ==> Sound(v, c, 0);
    assert check > 1 ==> Sound(v, c, 1);
    assert check > 2 ==> Sound(v, c, 2);
    assert check > 3 ==> Sound(v, c, 3);
    assert check > 4 ==> Sound(v, c, 4);
    RequirementIff(v, c);
    FieldsIff(v, c);
    if c.components.Some? && c.components.value != [] {
      FirstFaultFrom(c.components.value, 0);
    }
    hide HasText, FieldsKnown, Complete, SameType, FirstFault, FaultOf;
  }
}
