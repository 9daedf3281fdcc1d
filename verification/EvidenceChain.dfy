/**
 The fail-closed walk over an authorization evidence chain (`verify_chain` in
 `raucle/epaec.py`), over the requirement language of `Epaec`.
 */
module EvidenceChain {
  import opened Basics
  import opened Canon
  import opened Epaec

  const VERSION: Text := Ascii("EP-AEC-v1")
  const DIGEST_PREFIX: Text := Ascii("sha256:")
  const KNOWN_FIELDS: set<Text> := {
    Ascii("@version"), Ascii("action"), Ascii("action_digest"), Ascii("components"), Ascii("requirement")}

  type Evidence = Text

  /** A member that is missing, of the wrong type, or a string; a null tag counts as missing, a null digest does not. */
  datatype Slot = Absent | NotText | AText(text: Text)

  datatype Component = NotAnObject | Component(ctype: Slot, evidence: Option<Evidence>, tag: Slot)

  datatype Chain = Chain(
    version: Option<Text>, action: Option<Json>, declared: Slot, components: Option<seq<Component>>,
    requirement: Slot, fields: set<Text>)

  datatype ChainError =
    | BadChainType | BadVersion | BadAction | BadComponents | BadComponent | DuplicateComponentType
    | BadRequirement | UnknownChainField | BadActionDigest | ActionDigestMismatch | InRequirement(error: Error)

  /** What a registered verifier says of one piece of evidence. */
  datatype Check = Raised | Checked(valid: bool, bound: Option<Text>)

  datatype Status = Verified | Invalid | Unverified

  /** Character classes, the canonical digest of an action (if it has one) and the registered verifiers. */
  datatype Verifiers = Verifiers(chars: Chars, digest: Json -> Option<Text>, byType: map<Text, Evidence -> Check>)

  datatype Report = Report(
    allow: bool, pass: bool, digest: Option<Text>, statuses: seq<Status>, satisfied: set<Text>,
    error: Option<ChainError>)

  // ---- Structure ----------------------------------------------------------

  predicate TypedComponent(c: Component) {
    c.Component? && c.ctype.AText? && c.ctype.text != []
  }

  /** The type of a component; empty when it has none. */
  function TypeOf(c: Component): Text {
    if TypedComponent(c) then c.ctype.text else []
  }

  predicate DistinctTypes(components: seq<Component>) {
    forall i, k :: 0 <= i < k < |components| ==> TypeOf(components[i]) != TypeOf(components[k])
  }

  /** The types seen before position `i`. */
  function TypesBefore(components: seq<Component>, i: nat): set<Text>
    requires i <= |components|
  {
    set k | 0 <= k < i :: TypeOf(components[k])
  }

  /** What `_validate_chain_components` finds wrong at position `i`, earlier ones being fine. */
  function FaultAt(components: seq<Component>, i: nat): Option<ChainError>
    requires i < |components|
  {
    var c := components[i];
    if !TypedComponent(c) then Some(BadComponent)
    else if TypeOf(c) in TypesBefore(components, i) then Some(DuplicateComponentType)
    else if c.evidence.None? || c.tag.NotText? then Some(BadComponent)
    else None
  }

  /** Every component is complete and no type repeats. */
  predicate ComponentsOk(components: seq<Component>) {
    && components != []
    && (forall c :: c in components ==> TypedComponent(c) && c.evidence.Some? && !c.tag.NotText?)
    && DistinctTypes(components)
  }

  /** The first fault from position `i` on. */
  function FirstFault(components: seq<Component>, i: nat): Option<ChainError>
    requires i <= |components|
    decreases |components| - i
  {
    if i == |components| then None
    else if FaultAt(components, i).Some? then FaultAt(components, i)
    else FirstFault(components, i + 1)
  }

  method ValidateComponents(components: Option<seq<Component>>) returns (error: Option<ChainError>)
    ensures components.None? || components.value == [] ==> error == Some(BadComponents)
    ensures components.Some? && components.value != [] ==> error == FirstFault(components.value, 0)
    ensures error == None <==> components.Some? && ComponentsOk(components.value)
    ensures error == Some(BadComponents) <==> components.None? || components.value == []
    ensures error.Some? && error != Some(BadComponents) ==>
              exists i :: && 0 <= i < |components.value| && FaultAt(components.value, i) == error
                          && forall k :: 0 <= k < i ==> FaultAt(components.value, k) == None
  {
    if components.None? || components.value == [] {
      return Some(BadComponents);
    }
    var list := components.value;
    var seen: set<Text> := {};
    for i := 0 to |list|
      invariant seen == TypesBefore(list, i)
      invariant forall k :: 0 <= k < i ==> FaultAt(list, k) == None
      invariant FirstFault(list, 0) == FirstFault(list, i)
    {
      var c := list[i];
      if !TypedComponent(c) {
        assert FaultAt(list, i) == Some(BadComponent);
        return Some(BadComponent);
      }
      if TypeOf(c) in seen {
        assert FaultAt(list, i) == Some(DuplicateComponentType);
        FaultMeansBad(list, i);
        return Some(DuplicateComponentType);
      }
      seen := seen + {TypeOf(c)};
      assert seen == TypesBefore(list, i + 1);
      if c.evidence.None? || c.tag.NotText? {
        assert FaultAt(list, i) == Some(BadComponent);
        return Some(BadComponent);
      }
    }
    NoFaultMeansOk(list);
    return None;
  }

  lemma FaultMeansBad(components: seq<Component>, i: nat)
    requires i < |components| && FaultAt(components, i).Some?
    ensures !ComponentsOk(components)
  {
  }

  lemma NoFaultMeansOk(components: seq<Component>)
    requires components != [] && forall i :: 0 <= i < |components| ==> FaultAt(components, i) == None
    ensures ComponentsOk(components)
  {
    forall c | c in components
      ensures TypedComponent(c) && c.evidence.Some? && !c.tag.NotText?
    {
      var i :| 0 <= i < |components| && components[i] == c;
      assert FaultAt(components, i) == None;
    }
    forall i, k | 0 <= i < k < |components|
      ensures TypeOf(components[i]) != TypeOf(components[k])
    {
      assert FaultAt(components, i) == None && FaultAt(components, k) == None;
    }
  }

  predicate HasText(chars: Chars, m: Slot) {
    m.AText? && exists i :: 0 <= i < |m.text| && !chars.isSpace(m.text[i])
  }

  predicate FieldsKnown(fields: set<Text>) {
    forall f :: f in fields && !(f != [] && f[0] == 0x40) ==> f in KNOWN_FIELDS
  }

  /** `validate_chain` accepts. */
  predicate WellFormed(v: Verifiers, c: Chain) {
    && c.version == Some(VERSION) && c.action.Some?
    && c.components.Some? && ComponentsOk(c.components.value)
    && HasText(v.chars, c.requirement) && FieldsKnown(c.fields)
  }

  /** What is wrong with the structure of a chain, the first thing in order. */
  function Malformation(v: Verifiers, c: Chain): Option<ChainError> {
    if c.version != Some(VERSION) then Some(BadVersion)
    else if c.action.None? then Some(BadAction)
    else if c.components.None? || c.components.value == [] then Some(BadComponents)
    else if FirstFault(c.components.value, 0).Some? then FirstFault(c.components.value, 0)
    else if !HasText(v.chars, c.requirement) then Some(BadRequirement)
    else if !FieldsKnown(c.fields) then Some(UnknownChainField)
    else None
  }

  method ValidateChain(v: Verifiers, c: Chain) returns (error: Option<ChainError>)
    ensures error == Malformation(v, c)
    ensures error == None <==> WellFormed(v, c)
  {
    if c.version != Some(VERSION) {
      return Some(BadVersion);
    }
    if c.action.None? {
      return Some(BadAction);
    }
    error := ValidateComponents(c.components);
    if error.Some? {
      return;
    }
    if !HasText(v.chars, c.requirement) {
      return Some(BadRequirement);
    }
    return if FieldsKnown(c.fields) then None else Some(UnknownChainField);
  }

  /** A declared digest is the recomputed one. */
  predicate DeclaredOk(declared: Slot, digest: Text) {
    declared.Absent? || (declared.AText? && DIGEST_PREFIX <= declared.text && declared.text == digest)
  }

  // ---- Components ---------------------------------------------------------

  /** `_verify_component`. */
  function StatusOf(v: Verifiers, digest: Text, c: Component): Status {
    if !TypedComponent(c) || c.evidence.None? || TypeOf(c) !in v.byType then Unverified
    else
      match v.byType[TypeOf(c)](c.evidence.value)
      case Raised => Invalid
      case Checked(valid, bound) => if valid && bound == Some(digest) then Verified else Invalid
  }

  /** The component is verified and bound to this action. */
  predicate Counts(v: Verifiers, digest: Text, c: Component) {
    StatusOf(v, digest, c) == Verified
  }

  /** The names a counting component satisfies: its type, and its label if it has one. */
  function NamesOf(c: Component): set<Text> {
    {TypeOf(c)} + if c.Component? && c.tag.AText? && c.tag.text != [] then {c.tag.text} else {}
  }

  function Satisfied(v: Verifiers, digest: Text, components: seq<Component>): set<Text> {
    set c, n | c in components && Counts(v, digest, c) && n in NamesOf(c) :: n
  }

  /** `_walk_components`. */
  method WalkComponents(v: Verifiers, digest: Text, components: seq<Component>)
    returns (satisfied: set<Text>, statuses: seq<Status>, anyInvalid: bool)
    requires ComponentsOk(components)
    ensures satisfied == Satisfied(v, digest, components)
    ensures |statuses| == |components| && forall i :: 0 <= i < |statuses| ==>
              components[i] in components && statuses[i] == StatusOf(v, digest, components[i])
    ensures anyInvalid <==> Invalid in statuses
  {
    satisfied, statuses, anyInvalid := {}, [], false;
    for i := 0 to |components|
      invariant satisfied == Satisfied(v, digest, components[..i])
      invariant |statuses| == i && forall k :: 0 <= k < i ==>
                  components[k] in components && statuses[k] == StatusOf(v, digest, components[k])
      invariant anyInvalid <==> Invalid in statuses
    {
      var c := components[i];
      assert c in components;
      var status := StatusOf(v, digest, c);
      SatisfiedStep(v, digest, components[..i], c);
      assert components[..i + 1] == components[..i] + [c];
      if status == Verified {
        satisfied := satisfied + {TypeOf(c)};
        if c.tag.AText? && c.tag.text != [] {
          satisfied := satisfied + {c.tag.text};
        }
      }
      anyInvalid := anyInvalid || status == Invalid;
      statuses := statuses + [status];
    }
    assert components[..|components|] == components;
  }

  lemma SatisfiedStep(v: Verifiers, digest: Text, done: seq<Component>, c: Component)
    ensures Satisfied(v, digest, done + [c])
            == Satisfied(v, digest, done) + if Counts(v, digest, c) then NamesOf(c) else {}
  {
  }

  // ---- The decision -------------------------------------------------------

  /** When the chain authorizes its action. */
  ghost predicate Allowed(v: Verifiers, c: Chain) {
    && WellFormed(v, c)
    && v.digest(c.action.value).Some? && DeclaredOk(c.declared, v.digest(c.action.value).value)
    && Understand(v.chars, c.requirement.text).Ok?
    && Denote(Understand(v.chars, c.requirement.text).value,
              Satisfied(v, v.digest(c.action.value).value, c.components.value))
  }

  /** No component of the chain was rejected by its verifier. */
  ghost predicate NoneInvalid(v: Verifiers, c: Chain)
    requires Allowed(v, c)
  {
    forall x :: x in c.components.value ==> StatusOf(v, v.digest(c.action.value).value, x) != Invalid
  }

  /** Why a structurally sound chain is denied before its requirement is weighed, if it is. */
  function ErrorOf(v: Verifiers, c: Chain): Option<ChainError>
    requires WellFormed(v, c)
  {
    var digest := v.digest(c.action.value);
    if digest.None? then Some(BadAction)
    else if c.declared.NotText? || (c.declared.AText? && !(DIGEST_PREFIX <= c.declared.text)) then Some(BadActionDigest)
    else if c.declared.AText? && c.declared.text != digest.value then Some(ActionDigestMismatch)
    else
      match Understand(v.chars, c.requirement.text)
      case Ok(_) => None
      case Err(e) => Some(InRequirement(e))
  }

  /** `verify_chain`: every failure denies; `None` stands for something that is not a chain object. */
  method VerifyChain(v: Verifiers, input: Option<Chain>) returns (r: Report)
    ensures r.allow <==> input.Some? && Allowed(v, input.value)
    ensures r.pass <==> r.allow && NoneInvalid(v, input.value)
    ensures r.error.Some? ==> !r.allow && !r.pass
    ensures input.None? ==> r == Denial(None, BadChainType)
    ensures input.Some? && !WellFormed(v, input.value) ==>
              Malformation(v, input.value).Some? && r == Denial(None, Malformation(v, input.value).value)
    ensures input.Some? && WellFormed(v, input.value) ==>
              r.error == ErrorOf(v, input.value) && r.digest == v.digest(input.value.action.value)
    ensures r.error == None ==>
              && input.Some? && WellFormed(v, input.value)
              && r.digest == v.digest(input.value.action.value) && r.digest.Some?
              && r.satisfied == Satisfied(v, r.digest.value, input.value.components.value)
              && |r.statuses| == |input.value.components.value|
              && forall i :: 0 <= i < |r.statuses| ==>
                   r.statuses[i] == StatusOf(v, r.digest.value, input.value.components.value[i])
  {
    if input.None? {
      return Denial(None, BadChainType);
    }
    var c := input.value;
    var malformed := ValidateChain(v, c);
    if malformed.Some? {
      return Denial(None, malformed.value);
    }
    var digest := v.digest(c.action.value);
    if digest.None? {
      return Denial(None, BadAction);
    }
    if !c.declared.Absent? {
      if !(c.declared.AText? && DIGEST_PREFIX <= c.declared.text) {
        return Denial(digest, BadActionDigest);
      }
      if c.declared.text != digest.value {
        return Denial(digest, ActionDigestMismatch);
      }
    }
    var satisfied, statuses, anyInvalid := WalkComponents(v, digest.value, c.components.value);
    var value, error := EvaluateRequirement(v.chars, c.requirement.text, satisfied);
    var allow := value && error.None?;
    InvalidSeen(v, digest.value, c.components.value, statuses);
    return Report(allow, allow && !anyInvalid, digest, statuses, satisfied,
                  if error.Some? then Some(InRequirement(error.value)) else None);
  }

  function Denial(digest: Option<Text>, error: ChainError): Report {
    Report(false, false, digest, [], {}, Some(error))
  }

  lemma InvalidSeen(v: Verifiers, digest: Text, components: seq<Component>, statuses: seq<Status>)
    requires ComponentsOk(components) && |statuses| == |components|
    requires forall i :: 0 <= i < |statuses| ==>
               components[i] in components && statuses[i] == StatusOf(v, digest, components[i])
    ensures Invalid in statuses <==> exists x :: x in components && StatusOf(v, digest, x) == Invalid
  {
  }

  // ---- What ALLOW means ---------------------------------------------------

  lemma SatisfiedGrows(v: Verifiers, digest: Text, a: seq<Component>, b: seq<Component>)
    requires forall x :: x in a && Counts(v, digest, x) ==> x in b
    ensures Satisfied(v, digest, a) <= Satisfied(v, digest, b)
  {
  }

  /** Evidence never hurts: a chain for the same action that keeps every verified component stays allowed. */
  lemma MoreEvidenceKeepsAllow(v: Verifiers, c: Chain, d: Chain)
    requires Allowed(v, c) && WellFormed(v, d) && DeclaredOk(d.declared, v.digest(c.action.value).value)
    requires d.action == c.action && d.requirement == c.requirement
    requires forall x :: x in c.components.value && Counts(v, v.digest(c.action.value).value, x) ==>
               x in d.components.value
    ensures Allowed(v, d)
  {
    hide ComponentsOk, Understand, Counts, Satisfied;
    var digest := v.digest(c.action.value).value;
    SatisfiedGrows(v, digest, c.components.value, d.components.value);
    DenoteMonotone(Understand(v.chars, c.requirement.text).value,
                   Satisfied(v, digest, c.components.value), Satisfied(v, digest, d.components.value));
  }

  /** Nothing is allowed without a verified component that binds exactly this action. */
  lemma AllowNeedsEvidence(v: Verifiers, c: Chain) returns (x: Component)
    requires Allowed(v, c)
    ensures x in c.components.value && Counts(v, v.digest(c.action.value).value, x)
  {
    var digest := v.digest(c.action.value).value;
    var e := Understand(v.chars, c.requirement.text).value;
    DenoteNothing(e);
    assert Satisfied(v, digest, c.components.value) != {};
    var n :| n in Satisfied(v, digest, c.components.value);
    x :| x in c.components.value && Counts(v, digest, x) && n in NamesOf(x);
  }

  /** The components that count, in order. */
  function OnlyVerified(v: Verifiers, digest: Text, components: seq<Component>): (r: seq<Component>)
    ensures forall x :: x in r <==> x in components && Counts(v, digest, x)
  {
    if components == [] then []
    else
      var init, last := components[..|components| - 1], components[|components| - 1];
      assert forall x :: x in components <==> x in init || x == last;
      OnlyVerified(v, digest, init) + if Counts(v, digest, last) then [last] else []
  }

  lemma {:induction false} OnlyVerifiedDistinct(v: Verifiers, digest: Text, components: seq<Component>)
    requires DistinctTypes(components)
    ensures DistinctTypes(OnlyVerified(v, digest, components))
  {
    if components != [] {
      var init, last := components[..|components| - 1], components[|components| - 1];
      assert forall x :: x in init ==> x in components;
      OnlyVerifiedDistinct(v, digest, init);
      var r := OnlyVerified(v, digest, init);
      forall i | 0 <= i < |r|
        ensures TypeOf(r[i]) != TypeOf(last)
      {
        assert r[i] in r && r[i] in init;
        var k :| 0 <= k < |init| && init[k] == r[i];
        assert components[k] == init[k];
      }
      assert last in components;
    }
  }

  /** Components that are unverified or rejected carry no authority: dropping them all changes no decision. */
  lemma OnlyVerifiedCarriesAuthority(v: Verifiers, c: Chain, digest: Text)
    requires WellFormed(v, c) && v.digest(c.action.value) == Some(digest)
    ensures var kept := OnlyVerified(v, digest, c.components.value);
            Allowed(v, c) <==> kept != [] && Allowed(v, c.(components := Some(kept)))
  {
    hide Counts, Understand;
    var all := c.components.value;
    var kept := OnlyVerified(v, digest, all);
    OnlyVerifiedDistinct(v, digest, all);
    assert Satisfied(v, digest, kept) == Satisfied(v, digest, all);
    if Allowed(v, c) {
      var x := AllowNeedsEvidence(v, c);
      assert x in kept;
    }
    if kept != [] {
      assert ComponentsOk(kept);
      assert WellFormed(v, c.(components := Some(kept)));
    }
  }

  /** Evidence that passed for one action authorizes no other: it cannot be replayed. */
  lemma PassIsNotReplayable(v: Verifiers, c: Chain, d: Chain)
    requires Allowed(v, c) && NoneInvalid(v, c) && Allowed(v, d)
    requires d.components == c.components
    ensures v.digest(c.action.value) == v.digest(d.action.value)
  {
    hide Understand, Satisfied;
    var x := AllowNeedsEvidence(v, d);
    assert StatusOf(v, v.digest(c.action.value).value, x) != Invalid;
  }
}
