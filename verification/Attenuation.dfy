/**
 Capability tokens, delegation (`attenuate`) and the verifier's own test that a child
 is a narrowing of its parent (`_attenuation_violation`).
 */
module Attenuation {
  import opened Basics
  import opened Canon
  import opened Values
  import opened Policy
  import opened Narrowing
  import opened Absorb
  import opened Repeats

  datatype Intent = Intent(statement: Text, tools: Option<seq<Text>>, constraints: Option<Constraints>)

  datatype Capability = Capability(
    tokenId: Text, agentId: Text, tool: Text, constraints: Constraints,
    issuer: Text, keyId: Text, issuedAt: int, notBefore: int, expiresAt: int,
    parentId: Option<Text>, intent: Option<Intent>, actingFor: Text,
    policyProofHash: Option<Text>, grammarHash: Option<Text>, policyHash: Option<Text>,
    signature: Text)

  /** `Capability.body`: the signed members, constraints in canonical form. */
  datatype Body = Body(
    agentId: Text, tool: Text, constraints: Constraints,
    issuer: Text, keyId: Text, issuedAt: int, notBefore: int, expiresAt: int,
    parentId: Option<Text>, intent: Option<Intent>, actingFor: Text,
    policyProofHash: Option<Text>, grammarHash: Option<Text>, policyHash: Option<Text>)

  /** Signing, signature checking, the token-id digest and the agent-id grammar. */
  datatype Crypto = Crypto(
    sign: Body -> Text, verify: (Text, Body, Text) -> bool, tokenIdOf: Body -> Text, agentIdOk: Text -> bool)

  function BodyOf(p: Platform, c: Capability): Result<Body, Refusal> {
    var constraints :- Normalise(p, c.constraints);
    Ok(Body(c.agentId, c.tool, constraints, c.issuer, c.keyId, c.issuedAt, c.notBefore, c.expiresAt,
            c.parentId, c.intent, c.actingFor, c.policyProofHash, c.grammarHash, c.policyHash))
  }

  /** The signature covers every member but itself and the id derived from it, constraints up to canonical form. */
  lemma SameBodyIff(p: Platform, a: Capability, b: Capability)
    requires BodyOf(p, a).Ok? && BodyOf(p, b).Ok?
    ensures BodyOf(p, a) == BodyOf(p, b) <==>
            && Normalise(p, a.constraints) == Normalise(p, b.constraints)
            && a == b.(tokenId := a.tokenId, signature := a.signature, constraints := a.constraints)
  {
    hide Normalise;
  }

  // ---- Python equality of canonical blocks --------------------------------

  predicate ListEq(a: seq<Scalar>, b: seq<Scalar>) {
    |a| == |b| && forall i :: 0 <= i < |a| ==> PyEq(a[i], b[i])
  }

  predicate ListsEq(a: Option<map<Text, seq<Scalar>>>, b: Option<map<Text, seq<Scalar>>>) {
    && (a.Some? <==> b.Some?)
    && Entries(a).Keys == Entries(b).Keys
    && forall f :: f in Entries(a) ==> ListEq(Entries(a)[f], Entries(b)[f])
  }

  /** `merged != normalised` compares dicts with `==`, so `[True]` equals `[1]`. */
  predicate BlockEq(a: Constraints, b: Constraints) {
    && ListsEq(a.forbiddenValues, b.forbiddenValues)
    && ListsEq(a.allowedValues, b.allowedValues)
    && a.(forbiddenValues := None, allowedValues := None) == b.(forbiddenValues := None, allowedValues := None)
  }

  // ---- The verifier's narrowing test --------------------------------------

  const DOT_SEPARATOR: Text := Ascii(".")

  /** Equal to the scope or a dot-delimited descendant of it. */
  predicate AgentInScope(agent: Text, scope: Text) {
    agent == scope || HasPrefix(agent, scope + DOT_SEPARATOR)
  }

  /** `Raised` stands for the `ValueError` the comparison itself can raise. */
  datatype Violation =
    | DifferentTool | AgentOutside | OutlivesParent | PrecedesParent | Broadens | NotNarrowing | Raised

  /** `_attenuation_violation`. */
  function AttenuationViolation(p: Platform, child: Capability, parent: Capability): Option<Violation> {
    if child.tool != parent.tool then Some(DifferentTool)
    else if !AgentInScope(child.agentId, parent.agentId) then Some(AgentOutside)
    else if child.expiresAt > parent.expiresAt then Some(OutlivesParent)
    else if child.notBefore < parent.notBefore then Some(PrecedesParent)
    else
      match Merge(p, parent.constraints, child.constraints)
      case Err(_) => Some(Broadens)
      case Ok(merged) =>
        match Normalise(p, child.constraints)
        case Err(_) => Some(Raised)
        case Ok(own) => if BlockEq(merged, own) then None else Some(NotNarrowing)
  }

  lemma ListEqSameMembership(a: seq<Scalar>, b: seq<Scalar>, s: Scalar)
    requires ListEq(a, b)
    ensures In(s, a) <==> In(s, b)
  {
    if In(s, a) {
      var x :| x in a && PyEq(s, x);
      var i :| 0 <= i < |a| && a[i] == x;
      assert PyEq(s, b[i]);
    }
    if In(s, b) {
      var y :| y in b && PyEq(s, y);
      var i :| 0 <= i < |b| && b[i] == y;
      assert PyEq(a[i], b[i]) && PyEq(s, a[i]);
    }
  }

  lemma ListsEqSameMeaning(a: Option<map<Text, seq<Scalar>>>, b: Option<map<Text, seq<Scalar>>>, args: Args)
    requires ListsEq(a, b)
    ensures ForbiddenOk(Entries(a), args) <==> ForbiddenOk(Entries(b), args)
    ensures AllowedOk(Entries(a), args) <==> AllowedOk(Entries(b), args)
  {
    forall f, s | f in Entries(a)
      ensures In(s, Entries(a)[f]) <==> In(s, Entries(b)[f])
    {
      ListEqSameMembership(Entries(a)[f], Entries(b)[f], s);
    }
  }

  /** Blocks Python calls equal admit the same calls, although `True` may stand for `1`. */
  lemma BlockEqSameMeaning(p: Platform, a: Constraints, b: Constraints, args: Args)
    requires BlockEq(a, b)
    ensures Accepts(p, a, args) <==> Accepts(p, b, args)
  {
    ListsEqSameMeaning(a.forbiddenValues, b.forbiddenValues, args);
    ListsEqSameMeaning(a.allowedValues, b.allowedValues, args);
  }

  /**
   Attenuation soundness: a child the verifier passes admits no call its parent refuses,
   whatever the call's arguments, when file prefixes narrow canonically. Without that
   proviso only the parent's own prefix test can still refuse the call.
   */
  lemma AttenuationNarrows(p: Platform, child: Capability, parent: Capability, args: Args)
    requires AttenuationViolation(p, child, parent) == None
    requires Accepts(p, child.constraints, args)
    ensures Accepts(p, parent.constraints, args) <==> PrefixesOk(p, Entries(parent.constraints.startsWith), args)
    ensures PrefixesCanonical(p, parent.constraints, child.constraints) ==> Accepts(p, parent.constraints, args)
  {
    var merged := Merge(p, parent.constraints, child.constraints).value;
    var own := Normalise(p, child.constraints).value;
    NormaliseKeepsMeaning(p, child.constraints, args);
    BlockEqSameMeaning(p, merged, own, args);
    MergeNarrowsParent(p, parent.constraints, child.constraints, args);
  }

  /** A token whose body could be built never makes the test raise. */
  lemma SignedChildNeverRaises(p: Platform, child: Capability, parent: Capability)
    requires BodyOf(p, child).Ok?
    ensures AttenuationViolation(p, child, parent) != Some(Raised)
  {
  }

  // ---- Delegation ---------------------------------------------------------

  datatype MintError =
    | Unsigned | ParentExpired | BadAgent | Refused(refusal: Refusal) | Widened
    | BadIntent | Retargeted | IntentWidened | ChildOutlives

  /** `_narrow_agent_id`; the empty id counts as not supplied. */
  function NarrowAgent(cr: Crypto, parent: Capability, narrower: Option<Text>): Result<Text, MintError> {
    if narrower.None? || narrower.value == [] || narrower.value == parent.agentId then Ok(parent.agentId)
    else if cr.agentIdOk(narrower.value) && HasPrefix(narrower.value, parent.agentId + DOT_SEPARATOR)
    then Ok(narrower.value)
    else Err(BadAgent)
  }

  predicate SubsetLists(a: seq<Scalar>, b: seq<Scalar>) {
    forall x :: x in a ==> x in b
  }

  /** `_assert_narrowing`: the mint-time defence in depth. */
  predicate AssertNarrowing(parent: Constraints, child: Constraints) {
    var pa, ca := Entries(parent.allowedValues), Entries(child.allowedValues);
    var pf, cf := Entries(parent.forbiddenValues), Entries(child.forbiddenValues);
    var pu, cu := Entries(parent.maxValue), Entries(child.maxValue);
    var pl, cl := Entries(parent.minValue), Entries(child.minValue);
    && (forall f :: f in pa && f in ca ==> SubsetLists(ca[f], pa[f]))
    && (forall f :: f in pf && f in cf ==> SubsetLists(pf[f], cf[f]))
    && (forall f :: f in pu && f in cu ==> cu[f] <= pu[f])
    && (forall f :: f in pl && f in cl ==> cl[f] >= pl[f])
  }

  predicate IntentOk(intent: Option<Intent>) {
    intent.Some? ==>
      && intent.value.statement != []
      && (intent.value.tools.Some? ==>
            intent.value.tools.value != [] && forall t :: t in intent.value.tools.value ==> t != [])
  }

  /** `_narrow_intent`. An empty constraint block is falsy, so it is not merged. */
  function NarrowIntent(p: Platform, parent: Option<Intent>, intent: Option<Intent>)
    : Result<Option<Intent>, MintError>
  {
    if intent.None? then Ok(parent)
    else if parent.None? then Ok(intent)
    else
      var wide, narrow := parent.value, intent.value;
      if wide.tools.Some? && narrow.tools.Some? && exists t :: t in narrow.tools.value && t !in wide.tools.value
      then Err(IntentWidened)
      else
        var wc, nc := wide.constraints.GetOr(NO_CONSTRAINTS), narrow.constraints.GetOr(NO_CONSTRAINTS);
        if wc == NO_CONSTRAINTS || nc == NO_CONSTRAINTS then Ok(intent)
        else
          match Merge(p, wc, nc)
          case Err(e) => Err(Refused(e))
          case Ok(m) => if AssertNarrowing(wc, m) then Ok(Some(narrow.(constraints := Some(m)))) else Err(Widened)
  }

  datatype Request = Request(
    extra: Constraints, ttl: Option<int>, agent: Option<Text>, intent: Option<Intent>, actingFor: Text)

  /** `CapabilityIssuer.attenuate`, at clock `now`. */
  function Attenuate(p: Platform, cr: Crypto, issuer: Text, keyId: Text, parent: Capability, r: Request, now: int)
    : Result<Capability, MintError>
  {
    if parent.signature == [] then Err(Unsigned)
    else if parent.expiresAt <= now then Err(ParentExpired)
    else
      var agent :- NarrowAgent(cr, parent, r.agent);
      match Merge(p, parent.constraints, r.extra)
      case Err(e) => Err(Refused(e))
      case Ok(merged) =>
        if !AssertNarrowing(parent.constraints, merged) then Err(Widened)
        else if !IntentOk(r.intent) then Err(BadIntent)
        else if parent.actingFor != [] && r.actingFor != [] && r.actingFor != parent.actingFor then Err(Retargeted)
        else
          var intent :- NarrowIntent(p, parent.intent, r.intent);
          var expiry := now + r.ttl.GetOr(parent.expiresAt - now);
          if expiry > parent.expiresAt then Err(ChildOutlives)
          else
            var body := Body(agent, parent.tool, merged, issuer, keyId, now, Larger(now, parent.notBefore), expiry,
                             Some(parent.tokenId), intent,
                             if r.actingFor != [] then r.actingFor else parent.actingFor,
                             parent.policyProofHash, None, None);
            Ok(Capability(cr.tokenIdOf(body), agent, parent.tool, merged, issuer, keyId, now,
                          Larger(now, parent.notBefore), expiry, Some(parent.tokenId), intent, body.actingFor,
                          parent.policyProofHash, None, None, cr.sign(body)))
  }

  /** The merge already narrows on every dimension `_assert_narrowing` looks at. */
  lemma AssertNarrowingNeverFires(p: Platform, parent: Constraints, extra: Constraints)
    requires Merge(p, parent, extra).Ok?
    ensures AssertNarrowing(parent, Merge(p, parent, extra).value)
  {
    var m := Merge(p, parent, extra).value;
    NormaliseParts(p, RawMerge(parent, extra));
    NormalisedLists(p, MergedAllowed(parent, extra), m.allowedValues);
    NormalisedLists(p, MergedForbidden(parent, extra), m.forbiddenValues);
    AllowedShrinks(parent, extra, m);
    ForbiddenGrows(parent, extra, m);
  }

  lemma AllowedShrinks(parent: Constraints, extra: Constraints, m: Constraints)
    requires Entries(MergedAllowed(parent, extra)).Keys == Entries(m.allowedValues).Keys
    requires forall f :: f in Entries(m.allowedValues) ==>
               Entries(m.allowedValues)[f] == SortScalars(Entries(MergedAllowed(parent, extra))[f])
    ensures forall f :: f in Entries(parent.allowedValues) && f in Entries(m.allowedValues) ==>
              SubsetLists(Entries(m.allowedValues)[f], Entries(parent.allowedValues)[f])
  {
    forall f | f in Entries(parent.allowedValues) && f in Entries(m.allowedValues)
      ensures SubsetLists(Entries(m.allowedValues)[f], Entries(parent.allowedValues)[f])
    {
      SortScalarsMembers(Entries(MergedAllowed(parent, extra))[f]);
    }
  }

  lemma ForbiddenGrows(parent: Constraints, extra: Constraints, m: Constraints)
    requires Entries(MergedForbidden(parent, extra)).Keys == Entries(m.forbiddenValues).Keys
    requires forall f :: f in Entries(m.forbiddenValues) ==>
               Entries(m.forbiddenValues)[f] == SortScalars(Entries(MergedForbidden(parent, extra))[f])
    ensures forall f :: f in Entries(parent.forbiddenValues) && f in Entries(m.forbiddenValues) ==>
              SubsetLists(Entries(parent.forbiddenValues)[f], Entries(m.forbiddenValues)[f])
  {
    forall f | f in Entries(parent.forbiddenValues) && f in Entries(m.forbiddenValues)
      ensures SubsetLists(Entries(parent.forbiddenValues)[f], Entries(m.forbiddenValues)[f])
    {
      SortScalarsMembers(Entries(MergedForbidden(parent, extra))[f]);
    }
  }

  lemma BlockEqReflexive(c: Constraints)
    requires forall f :: f in Entries(c.forbiddenValues) ==> MembersOk(Entries(c.forbiddenValues)[f])
    requires forall f :: f in Entries(c.allowedValues) ==> MembersOk(Entries(c.allowedValues)[f])
    ensures BlockEq(c, c)
  {
    forall f, i | f in Entries(c.forbiddenValues) && 0 <= i < |Entries(c.forbiddenValues)[f]|
      ensures PyEq(Entries(c.forbiddenValues)[f][i], Entries(c.forbiddenValues)[f][i])
    {
      assert Entries(c.forbiddenValues)[f][i] in Entries(c.forbiddenValues)[f];
    }
    forall f, i | f in Entries(c.allowedValues) && 0 <= i < |Entries(c.allowedValues)[f]|
      ensures PyEq(Entries(c.allowedValues)[f][i], Entries(c.allowedValues)[f][i])
    {
      assert Entries(c.allowedValues)[f][i] in Entries(c.allowedValues)[f];
    }
  }

  lemma MergedBlockEqReflexive(p: Platform, raw: Constraints, m: Constraints)
    requires Normalise(p, raw) == Ok(m)
    ensures BlockEq(m, m)
  {
    NormaliseParts(p, raw);
    NormaliseListsFixed(p, raw.forbiddenValues, m.forbiddenValues);
    NormaliseListsFixed(p, raw.allowedValues, m.allowedValues);
    BlockEqReflexive(m);
  }

  lemma AgentNarrowed(cr: Crypto, parent: Capability, narrower: Option<Text>)
    requires NarrowAgent(cr, parent, narrower).Ok?
    ensures AgentInScope(NarrowAgent(cr, parent, narrower).value, parent.agentId)
  {
  }

  lemma MintedFields(p: Platform, cr: Crypto, issuer: Text, keyId: Text, parent: Capability, r: Request, now: int)
    requires Attenuate(p, cr, issuer, keyId, parent, r, now).Ok?
    ensures var child := Attenuate(p, cr, issuer, keyId, parent, r, now).value;
            && Merge(p, parent.constraints, r.extra) == Ok(child.constraints)
            && child.tool == parent.tool && child.parentId == Some(parent.tokenId)
            && parent.notBefore <= child.notBefore && child.expiresAt <= parent.expiresAt
            && AgentInScope(child.agentId, parent.agentId)
            && (parent.actingFor != [] ==> child.actingFor == parent.actingFor)
            && (Normalise(p, child.constraints) == Ok(child.constraints) ==>
                  && BodyOf(p, child).Ok?
                  && child.tokenId == cr.tokenIdOf(BodyOf(p, child).value)
                  && child.signature == cr.sign(BodyOf(p, child).value))
  {
    AgentNarrowed(cr, parent, r.agent);
  }

  /** The re-check equates the merge with the child by Python equality; that too decides repeats. */
  lemma RecheckIff(p: Platform, parent: Constraints, extra: Constraints, m: Constraints)
    requires Merge(p, parent, extra) == Ok(m)
    ensures Merge(p, parent, m).Ok? && (BlockEq(Merge(p, parent, m).value, m) <==> DupFree(m))
  {
    hide NormaliseLists, NormaliseRequired, NormaliseCombos, Relists, ListsDupFree, NoDup;
    MergeAbsorbsIff(p, parent, extra, m);
    var again := Merge(p, parent, m).value;
    if DupFree(m) {
      MergedBlockEqReflexive(p, RawMerge(parent, extra), m);
    }
    if BlockEq(again, m) {
      NormaliseParts(p, RawMerge(parent, extra));
      NormaliseParts(p, RawMerge(parent, m));
      AbsorbForbidden(p, parent, extra, m);
      AbsorbAllowed(p, parent, extra, m);
      AbsorbRequired(p, parent, extra, m);
      AbsorbCombos(parent, extra, m);
      RelistedLengths(p, MergedForbidden(parent, m), m.forbiddenValues, again.forbiddenValues);
      RelistedLengths(p, MergedAllowed(parent, m), m.allowedValues, again.allowedValues);
    }
  }

  /**
   Mint and verifier agree exactly when nothing stays repeated: a minted child passes the
   verifier's re-check if and only if every list of the parent that repeats an entry is
   named by the extra block too. It always carries the id and the signature of its own body.
   */
  lemma MintedChildPassesIff(p: Platform, cr: Crypto, issuer: Text, keyId: Text, parent: Capability, r: Request,
                             now: int)
    requires Attenuate(p, cr, issuer, keyId, parent, r, now).Ok?
    ensures var child := Attenuate(p, cr, issuer, keyId, parent, r, now).value;
            && (AttenuationViolation(p, child, parent) == None <==> RepeatsReplaced(parent.constraints, r.extra))
            && BodyOf(p, child).Ok?
            && child.tokenId == cr.tokenIdOf(BodyOf(p, child).value)
            && child.signature == cr.sign(BodyOf(p, child).value)
  {
    MintedFields(p, cr, issuer, keyId, parent, r, now);
    var m := Attenuate(p, cr, issuer, keyId, parent, r, now).value.constraints;
    hide Attenuate, Merge, BlockEq, DupFree, RepeatsReplaced, AgentInScope;
    NormaliseMerged(p, parent.constraints, r.extra, m);
    MergeDupFreeIff(p, parent.constraints, r.extra);
    RecheckIff(p, parent.constraints, r.extra, m);
  }

  lemma NormaliseMerged(p: Platform, parent: Constraints, extra: Constraints, m: Constraints)
    requires Merge(p, parent, extra) == Ok(m)
    ensures Normalise(p, m) == Ok(m)
  {
    NormaliseIdempotent(p, RawMerge(parent, extra), m);
  }

  /** A parent whose whitelist says "a" twice. */
  const REPEATING := Capability(
    Ascii("p"), Ascii("a"), Ascii("t"),
    NO_CONSTRAINTS.(allowedValues := Some(map[Ascii("f") := [Str(Ascii("a")), Str(Ascii("a"))]])),
    Ascii("i"), Ascii("k"), 0, 0, 1, None, None, [], None, None, None, Ascii("sig"))

  const UNCHANGED := Request(NO_CONSTRAINTS, None, None, None, [])

  /** The input on which they disagree: delegating that parent unchanged mints a child the verifier refuses. */
  lemma RepeatedEntryDenied(p: Platform, cr: Crypto)
    ensures var minted := Attenuate(p, cr, Ascii("i"), Ascii("k"), REPEATING, UNCHANGED, 0);
            minted.Ok? && AttenuationViolation(p, minted.value, REPEATING) == Some(NotNarrowing)
  {
    RepeatingIsMinted(p, cr);
    var child := Attenuate(p, cr, Ascii("i"), Ascii("k"), REPEATING, UNCHANGED, 0).value;
    MintedFields(p, cr, Ascii("i"), Ascii("k"), REPEATING, UNCHANGED, 0);
    hide Attenuate, Merge, BlockEq, DupFree, RepeatsReplaced;
    NormaliseMerged(p, REPEATING.constraints, NO_CONSTRAINTS, child.constraints);
    MergeDupFreeIff(p, REPEATING.constraints, NO_CONSTRAINTS);
    RecheckIff(p, REPEATING.constraints, NO_CONSTRAINTS, child.constraints);
    RepeatingStays();
  }

  lemma RepeatingStays()
    ensures !RepeatsReplaced(REPEATING.constraints, NO_CONSTRAINTS)
  {
    var lists := Entries(REPEATING.constraints.allowedValues);
    assert Ascii("f") in lists && Ascii("f") !in Entries<seq<Scalar>>(None);
    assert |lists[Ascii("f")]| == 2 && lists[Ascii("f")][0] == lists[Ascii("f")][1];
  }

  lemma RepeatingIsMinted(p: Platform, cr: Crypto)
    ensures Attenuate(p, cr, Ascii("i"), Ascii("k"), REPEATING, UNCHANGED, 0).Ok?
  {
    RepeatingMerges(p);
    AssertNarrowingNeverFires(p, REPEATING.constraints, NO_CONSTRAINTS);
    hide Merge, AssertNarrowing;
  }

  lemma RepeatingMerges(p: Platform)
    ensures Merge(p, REPEATING.constraints, NO_CONSTRAINTS).Ok?
  {
  }

  /**
   A minted child never admits a call its parent refuses, file prefixes aside, nor one the
   known kinds of the extra block refuse.
   */
  lemma MintedChildNarrows(p: Platform, cr: Crypto, issuer: Text, keyId: Text, parent: Capability, r: Request,
                           now: int, args: Args)
    requires Attenuate(p, cr, issuer, keyId, parent, r, now).Ok?
    requires Accepts(p, Attenuate(p, cr, issuer, keyId, parent, r, now).value.constraints, args)
    ensures Accepts(p, parent.constraints, args) <==> PrefixesOk(p, Entries(parent.constraints.startsWith), args)
    ensures PrefixesCanonical(p, parent.constraints, r.extra) ==> Accepts(p, parent.constraints, args)
    ensures Accepts(p, r.extra, args) <==> r.extra.unknownKinds == {}
  {
    MintedFields(p, cr, issuer, keyId, parent, r, now);
    MergeNarrowsParent(p, parent.constraints, r.extra, args);
    MergeNarrowsExtra(p, parent.constraints, r.extra, args);
  }

  /** Delegation scopes compose: a descendant of a descendant is a descendant. */
  lemma ScopeTransitive(agent: Text, scope: Text, wide: Text)
    requires AgentInScope(agent, scope) && AgentInScope(scope, wide)
    ensures AgentInScope(agent, wide)
  {
  }
}
