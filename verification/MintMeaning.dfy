/** What delegation asks of its arguments, what it refuses first, and every member of the child it mints. */
module MintMeaning {
  import opened Basics
  import opened Canon
  import opened Values
  import opened Policy
  import opened Narrowing
  import opened MergeMeaning
  import opened Attenuation

  /** The agent asked for, or the parent's when none is. */
  ghost function Asked(parent: Capability, r: Request): Text {
    if r.agent.Some? && r.agent.value != [] then r.agent.value else parent.agentId
  }

  /** The expiry asked for, or the parent's when none is. */
  ghost function AskedExpiry(parent: Capability, r: Request, now: int): int {
    if r.ttl.Some? then now + r.ttl.value else parent.expiresAt
  }

  /** Both sides restrict something by tools. */
  ghost predicate BothNameTools(parent: Capability, r: Request) {
    && parent.intent.Some? && parent.intent.value.tools.Some?
    && r.intent.Some? && r.intent.value.tools.Some?
  }

  /** Both sides carry a block that is not empty. */
  ghost predicate BothConstrain(parent: Capability, r: Request) {
    && parent.intent.Some? && parent.intent.value.constraints.GetOr(NO_CONSTRAINTS) != NO_CONSTRAINTS
    && r.intent.Some? && r.intent.value.constraints.GetOr(NO_CONSTRAINTS) != NO_CONSTRAINTS
  }

  const STAGES := 9

  /** What each stage of delegation asks of the arguments, in order. */
  ghost predicate Grants(p: Platform, cr: Crypto, parent: Capability, r: Request, now: int, stage: nat) {
    match stage
    case 0 => parent.signature != []
    case 1 => now < parent.expiresAt
    case 2 =>
      Asked(parent, r) == parent.agentId
      || (cr.agentIdOk(Asked(parent, r)) && parent.agentId + Ascii(".") <= Asked(parent, r))
    case 3 => MergeGrants(p, parent.constraints, r.extra, MERGE_STAGES)
    case 4 =>
      r.intent.Some? ==>
        && r.intent.value.statement != []
        && (r.intent.value.tools.Some? ==> r.intent.value.tools.value != [] && [] !in r.intent.value.tools.value)
    case 5 => parent.actingFor == [] || r.actingFor == [] || r.actingFor == parent.actingFor
    case 6 =>
      BothNameTools(parent, r) ==>
        forall t :: t in r.intent.value.tools.value ==> t in parent.intent.value.tools.value
    case 7 =>
      BothConstrain(parent, r) ==>
        MergeGrants(p, parent.intent.value.constraints.value, r.intent.value.constraints.value, MERGE_STAGES)
    case 8 => AskedExpiry(parent, r, now) <= parent.expiresAt
    case _ => true
  }

  /** `e` is the error of a merge that is refused. */
  ghost predicate MergeError(p: Platform, parent: Constraints, extra: Constraints, e: MintError) {
    exists k: nat :: k < MERGE_STAGES && MergeGrants(p, parent, extra, k) && !MergeAsks(p, parent, extra, k) &&
                     e == Refused(MergeComplaint(k))
  }

  /** `e` is the error of a stage that does not grant. */
  ghost predicate Complaint(p: Platform, parent: Capability, r: Request, stage: nat, e: MintError) {
    match stage
    case 0 => e == Unsigned
    case 1 => e == ParentExpired
    case 2 => e == BadAgent
    case 3 => MergeError(p, parent.constraints, r.extra, e)
    case 4 => e == BadIntent
    case 5 => e == Retargeted
    case 6 => e == IntentWidened
    case 7 =>
      BothConstrain(parent, r) &&
      MergeError(p, parent.intent.value.constraints.value, r.intent.value.constraints.value, e)
    case _ => e == ChildOutlives
  }

  lemma MergeErrors(p: Platform, parent: Constraints, extra: Constraints)
    ensures Merge(p, parent, extra).Ok? <==> MergeGrants(p, parent, extra, MERGE_STAGES)
    ensures Merge(p, parent, extra).Err? ==> MergeError(p, parent, extra, Refused(Merge(p, parent, extra).error))
    ensures Merge(p, parent, extra).Ok? ==> AssertNarrowing(parent, Merge(p, parent, extra).value)
  {
    MergedIff(p, parent, extra);
    if Merge(p, parent, extra).Ok? {
      AssertNarrowingNeverFires(p, parent, extra);
    } else {
      var k := FirstRefusal(p, parent, extra, MERGE_STAGES);
      MergeRefusedFor(p, parent, extra, k);
      hide Merge, MergeGrants, MergeAsks;
      assert Merge(p, parent, extra) == Err(MergeComplaint(k));
    }
    hide Merge, AssertNarrowing, MergeGrants;
  }

  lemma {:induction false} FirstRefusal(p: Platform, parent: Constraints, extra: Constraints, before: nat)
    returns (k: nat)
    requires !MergeGrants(p, parent, extra, before)
    ensures k < before && MergeGrants(p, parent, extra, k) && !MergeAsks(p, parent, extra, k)
  {
    hide MergeAsks;
    if MergeGrants(p, parent, extra, before - 1) {
      k := before - 1;
    } else {
      k := FirstRefusal(p, parent, extra, before - 1);
    }
  }

  lemma IntentStages(p: Platform, cr: Crypto, parent: Capability, r: Request, now: int)
    ensures NarrowIntent(p, parent.intent, r.intent).Ok? <==>
            Grants(p, cr, parent, r, now, 6) && Grants(p, cr, parent, r, now, 7)
    ensures !Grants(p, cr, parent, r, now, 6) ==> NarrowIntent(p, parent.intent, r.intent) == Err(IntentWidened)
    ensures Grants(p, cr, parent, r, now, 6) && !Grants(p, cr, parent, r, now, 7) ==>
              && NarrowIntent(p, parent.intent, r.intent).Err?
              && Complaint(p, parent, r, 7, NarrowIntent(p, parent.intent, r.intent).error)
  {
    if BothConstrain(parent, r) {
      MergeErrors(p, parent.intent.value.constraints.value, r.intent.value.constraints.value);
    }
    hide Merge, AssertNarrowing, MergeGrants, MergeError;
  }

  /** Every stage in front of this one grants. */
  ghost predicate GrantsBefore(p: Platform, cr: Crypto, parent: Capability, r: Request, now: int, stage: nat) {
    forall k: nat :: k < stage ==> Grants(p, cr, parent, r, now, k)
  }

  lemma AgentStage(p: Platform, cr: Crypto, parent: Capability, r: Request, now: int)
    ensures if Grants(p, cr, parent, r, now, 2) then NarrowAgent(cr, parent, r.agent) == Ok(Asked(parent, r))
            else NarrowAgent(cr, parent, r.agent) == Err(BadAgent)
  {
  }

  lemma ShapeStage(p: Platform, cr: Crypto, parent: Capability, r: Request, now: int)
    ensures Grants(p, cr, parent, r, now, 4) <==> IntentOk(r.intent)
  {
  }

  /** Delegation succeeds if and only if every stage grants. */
  lemma MintedIff(p: Platform, cr: Crypto, issuer: Text, keyId: Text, parent: Capability, r: Request, now: int)
    ensures Attenuate(p, cr, issuer, keyId, parent, r, now).Ok? <==> GrantsBefore(p, cr, parent, r, now, STAGES)
  {
    AllStages(p, cr, parent, r, now);
    IntentStages(p, cr, parent, r, now);
    MergeErrors(p, parent.constraints, r.extra);
    AgentStage(p, cr, parent, r, now);
    ShapeStage(p, cr, parent, r, now);
    hide Merge, AssertNarrowing, NarrowIntent, BothConstrain, BothNameTools, NarrowAgent, IntentOk, MergeGrants,
      GrantsBefore, MergeError;
  }

  lemma AllStages(p: Platform, cr: Crypto, parent: Capability, r: Request, now: int)
    ensures GrantsBefore(p, cr, parent, r, now, STAGES) <==>
            && Grants(p, cr, parent, r, now, 0) && Grants(p, cr, parent, r, now, 1) && Grants(p, cr, parent, r, now, 2)
            && Grants(p, cr, parent, r, now, 3) && Grants(p, cr, parent, r, now, 4) && Grants(p, cr, parent, r, now, 5)
            && Grants(p, cr, parent, r, now, 6) && Grants(p, cr, parent, r, now, 7) && Grants(p, cr, parent, r, now, 8)
  {
    hide Grants;
  }

  /** Otherwise it gives the error of the first stage that does not. */
  lemma RefusedFor(p: Platform, cr: Crypto, issuer: Text, keyId: Text, parent: Capability, r: Request, now: int,
                   stage: nat)
    requires stage < STAGES && GrantsBefore(p, cr, parent, r, now, stage) && !Grants(p, cr, parent, r, now, stage)
    ensures Attenuate(p, cr, issuer, keyId, parent, r, now).Err?
    ensures Complaint(p, parent, r, stage, Attenuate(p, cr, issuer, keyId, parent, r, now).error)
  {
    IntentStages(p, cr, parent, r, now);
    MergeErrors(p, parent.constraints, r.extra);
    AgentStage(p, cr, parent, r, now);
    ShapeStage(p, cr, parent, r, now);
    Earlier(p, cr, parent, r, now, stage);
    hide Merge, AssertNarrowing, NarrowIntent, BothConstrain, BothNameTools, NarrowAgent, IntentOk, MergeGrants,
      GrantsBefore, MergeError;
  }

  lemma Earlier(p: Platform, cr: Crypto, parent: Capability, r: Request, now: int, stage: nat)
    requires GrantsBefore(p, cr, parent, r, now, stage)
    ensures stage > 0 ==> Grants(p, cr, parent, r, now, 0)
    ensures stage > 1 ==> Grants(p, cr, parent, r, now, 1)
    ensures stage > 2 ==> Grants(p, cr, parent, r, now, 2)
    ensures stage > 3 ==> Grants(p, cr, parent, r, now, 3)
    ensures stage > 4 ==> Grants(p, cr, parent, r, now, 4)
    ensures stage > 5 ==> Grants(p, cr, parent, r, now, 5)
    ensures stage > 6 ==> Grants(p, cr, parent, r, now, 6)
    ensures stage > 7 ==> Grants(p, cr, parent, r, now, 7)
  {
    hide Grants;
  }

  // ---- The child ----------------------------------------------------------

  /** The intent that was granted: the parent's when none is asked for, the narrower block when both constrain. */
  ghost predicate IntentGranted(p: Platform, parent: Capability, r: Request, granted: Option<Intent>) {
    if r.intent.None? then granted == parent.intent
    else
      && granted.Some?
      && granted.value.statement == r.intent.value.statement && granted.value.tools == r.intent.value.tools
      && if BothConstrain(parent, r) then
           granted.value.constraints.Some? &&
           Merge(p, parent.intent.value.constraints.value, r.intent.value.constraints.value)
           == Ok(granted.value.constraints.value)
         else granted.value.constraints == r.intent.value.constraints
  }

  /** Every member of the child. */
  lemma MintedMembers(p: Platform, cr: Crypto, issuer: Text, keyId: Text, parent: Capability, r: Request, now: int)
    requires Attenuate(p, cr, issuer, keyId, parent, r, now).Ok?
    ensures var child := Attenuate(p, cr, issuer, keyId, parent, r, now).value;
            && child.agentId == Asked(parent, r) && child.tool == parent.tool
            && child.issuer == issuer && child.keyId == keyId
            && child.issuedAt == now && child.expiresAt == AskedExpiry(parent, r, now)
            && child.notBefore >= now && child.notBefore >= parent.notBefore
            && (child.notBefore == now || child.notBefore == parent.notBefore)
            && child.parentId == Some(parent.tokenId)
            && child.actingFor == (if r.actingFor == [] then parent.actingFor else r.actingFor)
            && child.policyProofHash == parent.policyProofHash && child.grammarHash == None && child.policyHash == None
            && Merge(p, parent.constraints, r.extra) == Ok(child.constraints)
            && IntentGranted(p, parent, r, child.intent)
  {
    hide Merge, AssertNarrowing;
  }

  // ---- How far the intent narrows -----------------------------------------

  /** The intent restricts by no tools, or names this one. */
  ghost predicate IntentNames(i: Option<Intent>, tool: Text) {
    i.Some? && i.value.tools.Some? ==> tool in i.value.tools.value
  }

  /** The intent carries no block, or its block admits the call. */
  ghost predicate IntentAdmits(p: Platform, i: Option<Intent>, args: Args) {
    i.Some? && i.value.constraints.Some? ==> Accepts(p, i.value.constraints.value, args)
  }

  lemma {:induction false} Unlisted(list: seq<Text>) returns (t: Text)
    ensures t !in list && forall x :: x in list ==> |x| < |t|
  {
    if list == [] {
      t := [0];
    } else {
      var rest := Unlisted(list[1..]);
      t := rest + list[0] + [0];
    }
  }

  /** No tool is gained if and only if the parent names none or a given intent names its own. */
  lemma ToolsNarrowIff(p: Platform, cr: Crypto, issuer: Text, keyId: Text, parent: Capability, r: Request, now: int)
    requires Attenuate(p, cr, issuer, keyId, parent, r, now).Ok?
    ensures var child := Attenuate(p, cr, issuer, keyId, parent, r, now).value;
            (forall tool :: IntentNames(child.intent, tool) ==> IntentNames(parent.intent, tool)) <==>
            (parent.intent.Some? && parent.intent.value.tools.Some? && r.intent.Some? ==> r.intent.value.tools.Some?)
  {
    MintedMembers(p, cr, issuer, keyId, parent, r, now);
    IntentStages(p, cr, parent, r, now);
    MintedIff(p, cr, issuer, keyId, parent, r, now);
    var child := Attenuate(p, cr, issuer, keyId, parent, r, now).value;
    assert Grants(p, cr, parent, r, now, 6);
    hide Attenuate, Merge, NarrowIntent, MergeGrants, GrantsBefore, MergeError, Complaint;
    if parent.intent.Some? && parent.intent.value.tools.Some? && r.intent.Some? && r.intent.value.tools.None? {
      var tool := Unlisted(parent.intent.value.tools.value);
      assert IntentNames(child.intent, tool) && !IntentNames(parent.intent, tool);
    }
  }

  /** The block refuses nothing: it is free of demands. */
  ghost predicate DemandsNothing(c: Constraints) {
    && c.unknownKinds == {}
    && (forall f, s :: f in Entries(c.forbiddenValues) && s in c.forbiddenValues.value[f] ==> s == NaN)
    && Entries(c.allowedValues) == map[] && Entries(c.startsWith) == map[]
    && Entries(c.maxValue) == map[] && Entries(c.minValue) == map[]
    && NameList(c.requiredPresent) == [] && ComboList(c.forbiddenCombinations) == []
  }

  lemma AdmitsEverythingIff(p: Platform, c: Constraints)
    ensures (forall args :: Accepts(p, c, args)) <==> DemandsNothing(c)
  {
    if DemandsNothing(c) {
      forall args ensures Accepts(p, c, args) {
        assert forall f, s :: f in Entries(c.forbiddenValues) ==> !In(s, Entries(c.forbiddenValues)[f]);
      }
    } else if f, s :| f in Entries(c.forbiddenValues) && s in c.forbiddenValues.value[f] && s != NaN {
      var args: Args := map[f := Leaf(s)];
      assert s in Flatten(args[f]) && In(s, Entries(c.forbiddenValues)[f]);
      assert !Accepts(p, c, args);
    } else if ComboList(c.forbiddenCombinations) != [] {
      var combo := c.forbiddenCombinations.value[0];
      var args: Args := map f | f in combo :: Leaf(Null);
      assert combo in c.forbiddenCombinations.value && forall f :: f in combo ==> f in args;
      assert !Accepts(p, c, args);
    } else {
      var args: Args := map[];
      if NameList(c.requiredPresent) != [] {
        assert c.requiredPresent.value[0] !in args;
      }
      assert !Accepts(p, c, args);
    }
  }

  /** Without a block on both sides, a given intent drops the parent's: harmless only for one that demands nothing. */
  lemma DroppedBlockNarrowsIff(p: Platform, cr: Crypto, issuer: Text, keyId: Text, parent: Capability, r: Request,
                               now: int)
    requires Attenuate(p, cr, issuer, keyId, parent, r, now).Ok? && !BothConstrain(parent, r)
    ensures var child := Attenuate(p, cr, issuer, keyId, parent, r, now).value;
            (forall args :: IntentAdmits(p, child.intent, args) ==> IntentAdmits(p, parent.intent, args)) <==>
            (parent.intent.Some? && parent.intent.value.constraints.Some? && r.intent.Some? ==>
               DemandsNothing(parent.intent.value.constraints.value))
  {
    MintedMembers(p, cr, issuer, keyId, parent, r, now);
    var child := Attenuate(p, cr, issuer, keyId, parent, r, now).value;
    hide Attenuate, Merge, Accepts, DemandsNothing;
    if parent.intent.Some? && parent.intent.value.constraints.Some? && r.intent.Some? {
      var block := parent.intent.value.constraints.value;
      AdmitsEverythingIff(p, block);
      AdmitsEverythingIff(p, NO_CONSTRAINTS);
      EmptyDemandsNothing();
      if block != NO_CONSTRAINTS {
        assert forall args :: IntentAdmits(p, child.intent, args);
      }
      if args :| !Accepts(p, block, args) {
        assert IntentAdmits(p, child.intent, args) && !IntentAdmits(p, parent.intent, args);
      }
    }
  }

  lemma EmptyDemandsNothing()
    ensures DemandsNothing(NO_CONSTRAINTS)
  {
  }

  /** With a block on both sides the call stays inside the parent's, its own prefix test aside. */
  lemma MergedBlockNarrows(p: Platform, cr: Crypto, issuer: Text, keyId: Text, parent: Capability, r: Request,
                           now: int, args: Args)
    requires Attenuate(p, cr, issuer, keyId, parent, r, now).Ok? && BothConstrain(parent, r)
    requires IntentAdmits(p, Attenuate(p, cr, issuer, keyId, parent, r, now).value.intent, args)
    ensures var wide, narrow := parent.intent.value.constraints.value, r.intent.value.constraints.value;
            && (IntentAdmits(p, parent.intent, args) <==> PrefixesOk(p, Entries(wide.startsWith), args))
            && (PrefixesCanonical(p, wide, narrow) ==> IntentAdmits(p, parent.intent, args))
            && (narrow.unknownKinds == {} ==> IntentAdmits(p, r.intent, args))
  {
    MintedMembers(p, cr, issuer, keyId, parent, r, now);
    hide Attenuate, Merge, Accepts, PrefixesOk, PrefixesCanonical;
    MergeNarrowsParent(p, parent.intent.value.constraints.value, r.intent.value.constraints.value, args);
    MergeNarrowsExtra(p, parent.intent.value.constraints.value, r.intent.value.constraints.value, args);
  }

  /** A parent approved for one tool, and a request that restates the purpose without tools. */
  const APPROVED := REPEATING.(constraints := NO_CONSTRAINTS,
                               intent := Some(Intent(Ascii("pay"), Some([Ascii("t")]), None)))

  const RESTATED := UNCHANGED.(intent := Some(Intent(Ascii("pay"), None, None)))

  /** The input: the child's purpose covers a tool the parent's does not. */
  lemma RestatedPurposeWidens(p: Platform, cr: Crypto)
    ensures var minted := Attenuate(p, cr, Ascii("i"), Ascii("k"), APPROVED, RESTATED, 0);
            && minted.Ok? && !IntentNames(APPROVED.intent, Ascii("u")) && IntentNames(minted.value.intent, Ascii("u"))
  {
    assert Merge(p, NO_CONSTRAINTS, NO_CONSTRAINTS) == Ok(NO_CONSTRAINTS);
    assert Ascii("u")[0] != Ascii("t")[0];
  }

  // ---- The verifier's own test --------------------------------------------

  /** The place of a violation in the order of the test. */
  function Rank(v: Violation): nat {
    match v
    case DifferentTool => 0
    case AgentOutside => 1
    case OutlivesParent => 2
    case PrecedesParent => 3
    case Broadens => 4
    case Raised => 5
    case NotNarrowing => 6
  }

  /** The child keeps inside the parent where this violation looks. */
  ghost predicate Inside(p: Platform, child: Capability, parent: Capability, v: Violation) {
    match v
    case DifferentTool => child.tool == parent.tool
    case AgentOutside => child.agentId == parent.agentId || parent.agentId + Ascii(".") <= child.agentId
    case OutlivesParent => child.expiresAt <= parent.expiresAt
    case PrecedesParent => parent.notBefore <= child.notBefore
    case Broadens => MergeGrants(p, parent.constraints, child.constraints, MERGE_STAGES)
    case Raised => MergeGrants(p, child.constraints, NO_CONSTRAINTS, MERGE_STAGES)
    case NotNarrowing =>
      forall merged, own ::
        Merge(p, parent.constraints, child.constraints) == Ok(merged) && Normalise(p, child.constraints) == Ok(own) ==>
          BlockEq(merged, own)
  }

  /** The verifier passes a child that keeps inside everywhere, and otherwise names where it first does not. */
  lemma ViolationIff(p: Platform, child: Capability, parent: Capability)
    ensures AttenuationViolation(p, child, parent) == None <==> forall v :: Inside(p, child, parent, v)
    ensures forall v :: AttenuationViolation(p, child, parent) == Some(v) <==>
                          !Inside(p, child, parent, v) &&
                          forall w :: Rank(w) < Rank(v) ==> Inside(p, child, parent, w)
  {
    MergedIff(p, parent.constraints, child.constraints);
    CanonicalIff(p, child.constraints);
    hide Merge, Normalise, BlockEq, MergeGrants;
    assert Rank(DifferentTool) == 0 && Rank(AgentOutside) == 1 && Rank(OutlivesParent) == 2;
    assert Rank(PrecedesParent) == 3 && Rank(Broadens) == 4 && Rank(Raised) == 5 && Rank(NotNarrowing) == 6;
    if AttenuationViolation(p, child, parent) == None {
      forall v ensures Inside(p, child, parent, v) {}
    } else {
      assert !Inside(p, child, parent, AttenuationViolation(p, child, parent).value);
    }
  }
}
