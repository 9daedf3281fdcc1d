/**
 The gate (`CapabilityGate.check`): identity of the presented token, binding of the
 call to it, and the walk up its whole delegation chain.
 */
module Gate {
  import opened Basics
  import opened Canon
  import opened Values
  import opened Policy
  import opened Narrowing
  import opened Attenuation

  type Resolver = Text -> Option<Capability>

  /** Everything a decision depends on besides the call. */
  datatype GateView = GateView(
    platform: Platform, crypto: Crypto, issuers: map<Text, Text>, resolver: Option<Resolver>, revoked: set<Text>)

  datatype Call = Call(tool: Text, agent: Option<Text>, args: Args, actingFor: Text, now: int)

  datatype Denial =
    | UnknownKey | BadSignature | IdMismatch | Revoked | ParentRevoked | NotYetValid | Expired
    | WrongTool | MalformedAgent | AgentMismatch | ActingForMismatch | ConstraintViolated(kind: Kind)
    | IntentTool | IntentConstraint
    | NoResolver | UnresolvedParent | UntrustedParentKey | ParentBadSignature | AncestorRevoked
    | InvalidAttenuation(violation: Violation)

  datatype Decision = Allow(chain: seq<Text>) | Deny(reason: Denial, attributable: bool)

  // ---- One token ----------------------------------------------------------

  /** `_verify_signature`: the body can be built and the signature covers it. */
  predicate Signed(g: GateView, t: Capability, pem: Text) {
    BodyOf(g.platform, t).Ok? && g.crypto.verify(pem, BodyOf(g.platform, t).value, t.signature)
  }

  /** Signed by a key the gate pins. */
  predicate Authentic(g: GateView, t: Capability) {
    t.keyId in g.issuers && Signed(g, t, g.issuers[t.keyId])
  }

  /** `_check_token_identity`, stages 1 to 4. */
  function IdentityDenial(g: GateView, t: Capability, now: int): Option<Denial> {
    if t.keyId !in g.issuers then Some(UnknownKey)
    else if !Signed(g, t, g.issuers[t.keyId]) then Some(BadSignature)
    else if g.crypto.tokenIdOf(BodyOf(g.platform, t).value) != t.tokenId then Some(IdMismatch)
    else if t.tokenId in g.revoked then Some(Revoked)
    else if t.parentId.Some? && t.parentId.value in g.revoked then Some(ParentRevoked)
    else if now < t.notBefore then Some(NotYetValid)
    else if now >= t.expiresAt then Some(Expired)
    else None
  }

  function IntentDenial(g: GateView, t: Capability, args: Args): Option<Denial> {
    if t.intent.None? then None
    else if t.intent.value.tools.Some? && t.tool !in t.intent.value.tools.value then Some(IntentTool)
    else if t.intent.value.constraints.Some? && !Accepts(g.platform, t.intent.value.constraints.value, args)
    then Some(IntentConstraint)
    else None
  }

  /** `_check_attributable_binding`, stages 5 to 7.6. */
  function BindingDenial(g: GateView, t: Capability, call: Call): Option<Denial> {
    if t.tool != call.tool then Some(WrongTool)
    else if call.agent.Some? && !g.crypto.agentIdOk(call.agent.value) then Some(MalformedAgent)
    else if call.agent.Some? && !AgentInScope(call.agent.value, t.agentId) then Some(AgentMismatch)
    else if t.actingFor != [] && (call.actingFor == [] || call.actingFor != t.actingFor) then Some(ActingForMismatch)
    else
      match CheckConstraints(g.platform, t.constraints, call.args)
      case Some(kind) => Some(ConstraintViolated(kind))
      case None => IntentDenial(g, t, call.args)
  }

  // ---- The chain ----------------------------------------------------------

  /** `current.parent_id` is truthy. */
  predicate HasParent(t: Capability) {
    t.parentId.Some? && t.parentId.value != []
  }

  /** One step of `_verify_ancestor_chain`: the parent, or why the link is refused. */
  function StepUp(g: GateView, resolver: Resolver, current: Capability): Result<Capability, Denial>
    requires HasParent(current)
  {
    match resolver(current.parentId.value)
    case None => Err(UnresolvedParent)
    case Some(parent) =>
      if parent.keyId !in g.issuers then Err(UntrustedParentKey)
      else if !Signed(g, parent, g.issuers[parent.keyId]) then Err(ParentBadSignature)
      else if parent.tokenId in g.revoked then Err(AncestorRevoked)
      else
        match AttenuationViolation(g.platform, current, parent)
        case Some(v) => Err(InvalidAttenuation(v))
        case None => Ok(parent)
  }

  /** The token the climb stands at after `n` steps, if it has not stopped before. */
  ghost function ClimbedTo(g: GateView, resolver: Resolver, t: Capability, n: nat): Option<Capability> {
    if n == 0 then Some(t)
    else
      match ClimbedTo(g, resolver, t, n - 1)
      case None => None
      case Some(c) => if HasParent(c) && StepUp(g, resolver, c).Ok? then Some(StepUp(g, resolver, c).value) else None
  }

  ghost predicate ClimbEnds(g: GateView, resolver: Resolver, t: Capability) {
    exists n: nat :: ClimbedTo(g, resolver, t, n) == None
  }

  lemma {:induction false} ClimbLater(g: GateView, resolver: Resolver, t: Capability, n: nat)
    requires HasParent(t) && StepUp(g, resolver, t).Ok?
    ensures ClimbedTo(g, resolver, t, n + 1) == ClimbedTo(g, resolver, StepUp(g, resolver, t).value, n)
  {
    hide StepUp;
    if n > 0 {
      ClimbLater(g, resolver, t, n - 1);
    } else {
      assert ClimbedTo(g, resolver, t, 0) == Some(t);
    }
  }

  /** The whole walk: the ids passed, or the first refusal. `n` steps are enough for it to end. */
  function WalkUp(g: GateView, resolver: Resolver, current: Capability, ghost n: nat): Result<seq<Text>, Denial>
    requires ClimbedTo(g, resolver, current, n) == None
    decreases n
  {
    if !HasParent(current) then Ok([])
    else
      hide StepUp;
      var parent :- StepUp(g, resolver, current);
      ClimbLater(g, resolver, current, n - 1);
      var rest :- WalkUp(g, resolver, parent, n - 1);
      Ok([parent.tokenId] + rest)
  }

  /** The outcome of a walk that has already passed `chain`. */
  ghost function Prepended(chain: seq<Text>, r: Result<seq<Text>, Denial>): Result<seq<Text>, Denial> {
    match r
    case Ok(ids) => Ok(chain + ids)
    case Err(d) => Err(d)
  }

  lemma PrependedTwice(a: seq<Text>, b: seq<Text>, r: Result<seq<Text>, Denial>)
    ensures Prepended(a, Prepended(b, r)) == Prepended(a + b, r)
  {
    if r.Ok? {
      assert a + (b + r.value) == a + b + r.value;
    }
  }

  lemma WalkUpStep(g: GateView, resolver: Resolver, current: Capability, n: nat, step: Result<Capability, Denial>)
    requires ClimbedTo(g, resolver, current, n) == None && HasParent(current) && StepUp(g, resolver, current) == step
    ensures step.Err? ==> WalkUp(g, resolver, current, n) == Err(step.error)
    ensures step.Ok? ==> n > 0 && ClimbedTo(g, resolver, step.value, n - 1) == None
    ensures step.Ok? ==>
              WalkUp(g, resolver, current, n) == Prepended([step.value.tokenId], WalkUp(g, resolver, step.value, n - 1))
  {
    hide AttenuationViolation, Signed, StepUp;
    if step.Ok? {
      ClimbLater(g, resolver, current, n - 1);
    }
  }

  lemma WalkUpRoot(g: GateView, resolver: Resolver, current: Capability, n: nat)
    requires ClimbedTo(g, resolver, current, n) == None && !HasParent(current)
    ensures WalkUp(g, resolver, current, n) == Ok([])
  {
  }

  /** The decision comes down to the chain. */
  predicate NeedsClimb(g: GateView, t: Capability, call: Call) {
    IdentityDenial(g, t, call.now).None? && BindingDenial(g, t, call).None? && t.parentId.Some? && g.resolver.Some?
  }

  /** Where the chain is walked, `n` steps are enough. */
  ghost predicate Bounded(g: GateView, t: Capability, call: Call, n: nat) {
    NeedsClimb(g, t, call) ==> ClimbedTo(g, g.resolver.value, t, n) == None
  }

  /** `CapabilityGate.check` with proof enforcement off. */
  function Check(g: GateView, t: Capability, call: Call, ghost n: nat): Decision
    requires Bounded(g, t, call, n)
  {
    match IdentityDenial(g, t, call.now)
    case Some(d) => Deny(d, false)
    case None =>
      match BindingDenial(g, t, call)
      case Some(d) => Deny(d, true)
      case None =>
        if t.parentId.None? then Allow([])
        else if g.resolver.None? then Deny(NoResolver, false)
        else
          match WalkUp(g, g.resolver.value, t, n)
          case Err(d) => Deny(d, false)
          case Ok(chain) => Allow(chain)
  }

  // ---- Exactly when the climb ends ----------------------------------------

  /** The climb comes back to a token it has passed. */
  ghost predicate ComesBack(g: GateView, resolver: Resolver, t: Capability) {
    exists i: nat, j: nat ::
      i < j && ClimbedTo(g, resolver, t, i).Some? && ClimbedTo(g, resolver, t, i) == ClimbedTo(g, resolver, t, j)
  }

  lemma {:induction false} ClimbRepeats(g: GateView, resolver: Resolver, t: Capability, i: nat, j: nat, n: nat)
    requires i < j && ClimbedTo(g, resolver, t, i).Some?
    requires ClimbedTo(g, resolver, t, i) == ClimbedTo(g, resolver, t, j)
    ensures ClimbedTo(g, resolver, t, n).Some?
    decreases n
  {
    hide StepUp;
    if n > j {
      ClimbShift(g, resolver, t, i, j, n);
      ClimbRepeats(g, resolver, t, i, j, n - (j - i));
    } else {
      ClimbOnlyStops(g, resolver, t, n, j);
    }
  }

  lemma {:induction false} ClimbOnlyStops(g: GateView, resolver: Resolver, t: Capability, n: nat, m: nat)
    requires n <= m && ClimbedTo(g, resolver, t, m).Some?
    ensures ClimbedTo(g, resolver, t, n).Some?
    decreases m
  {
    hide StepUp;
    if n < m {
      ClimbOnlyStops(g, resolver, t, n, m - 1);
    }
  }

  lemma {:induction false} ClimbShift(g: GateView, resolver: Resolver, t: Capability, i: nat, j: nat, n: nat)
    requires i < j <= n && ClimbedTo(g, resolver, t, i) == ClimbedTo(g, resolver, t, j)
    ensures ClimbedTo(g, resolver, t, n) == ClimbedTo(g, resolver, t, n - (j - i))
    decreases n
  {
    hide StepUp;
    if n > j {
      ClimbShift(g, resolver, t, i, j, n - 1);
    }
  }

  lemma {:induction false} ClimbedAnswer(g: GateView, resolver: Resolver, t: Capability, answers: set<Capability>,
                                         n: nat)
    requires forall id :: resolver(id).Some? ==> resolver(id).value in answers
    requires n > 0 && ClimbedTo(g, resolver, t, n).Some?
    ensures ClimbedTo(g, resolver, t, n).value in answers
  {
  }

  /**
   Over a resolver with finitely many answers the climb ends if and only if it never comes
   back to a token, that is if it has stopped after one step more than there are answers.
   Tokens that cannot be reached through passing links do not matter.
   */
  lemma ClimbEndsIff(g: GateView, resolver: Resolver, t: Capability, answers: set<Capability>)
    requires forall id :: resolver(id).Some? ==> resolver(id).value in answers
    ensures ClimbEnds(g, resolver, t) <==> !ComesBack(g, resolver, t)
    ensures ClimbEnds(g, resolver, t) <==> ClimbedTo(g, resolver, t, |answers| + 1) == None
  {
    hide ClimbedTo;
    if ComesBack(g, resolver, t) {
      var i: nat, j: nat :|
        i < j && ClimbedTo(g, resolver, t, i).Some? && ClimbedTo(g, resolver, t, i) == ClimbedTo(g, resolver, t, j);
      forall n: nat
        ensures ClimbedTo(g, resolver, t, n).Some?
      {
        ClimbRepeats(g, resolver, t, i, j, n);
      }
    }
    if ClimbedTo(g, resolver, t, |answers| + 1).Some? {
      FullClimbComesBack(g, resolver, t, answers);
    }
  }

  lemma FullClimbComesBack(g: GateView, resolver: Resolver, t: Capability, answers: set<Capability>)
    requires forall id :: resolver(id).Some? ==> resolver(id).value in answers
    requires ClimbedTo(g, resolver, t, |answers| + 1).Some?
    ensures ComesBack(g, resolver, t)
  {
    hide ClimbedTo;
    var n := |answers| + 1;
    forall i: nat | i <= n
      ensures ClimbedTo(g, resolver, t, i).Some? && (i > 0 ==> ClimbedTo(g, resolver, t, i).value in answers)
    {
      ClimbOnlyStops(g, resolver, t, i, n);
      if i > 0 {
        ClimbedAnswer(g, resolver, t, answers, i);
      }
    }
    var passed := seq(n, i requires 0 <= i < n => ClimbedTo(g, resolver, t, i + 1).value);
    if NoDup(passed) {
      NoDupBound(passed, answers);
      assert false;
    }
    var i, j :| 0 <= i < j < n && passed[i] == passed[j];
    assert ClimbedTo(g, resolver, t, i + 1) == ClimbedTo(g, resolver, t, j + 1);
  }

  /** A token citing itself; its id is no part of its signed body, and ancestors' ids are not recomputed. */
  const SELF_CITING := Capability(
    Ascii("p"), Ascii("a"), Ascii("t"), NO_CONSTRAINTS, Ascii("i"), Ascii("k"), 0, 0, 1, Some(Ascii("p")),
    None, [], None, None, None, Ascii("sig"))

  /** The input on which the climb does not end: the resolver answers with a signed token that cites itself. */
  lemma SelfCitingNeverEnds(g: GateView, resolver: Resolver)
    requires g.issuers == map[Ascii("k") := Ascii("pem")] && g.revoked == {}
    requires BodyOf(g.platform, SELF_CITING).Ok?
    requires g.crypto.verify(Ascii("pem"), BodyOf(g.platform, SELF_CITING).value, Ascii("sig"))
    requires resolver(Ascii("p")) == Some(SELF_CITING)
    ensures !ClimbEnds(g, resolver, SELF_CITING)
  {
    SelfCitingStep(g, resolver);
    forall n: nat
      ensures ClimbedTo(g, resolver, SELF_CITING, n).Some?
    {
      ClimbRepeats(g, resolver, SELF_CITING, 0, 1, n);
    }
  }

  lemma SelfCitingStep(g: GateView, resolver: Resolver)
    requires g.issuers == map[Ascii("k") := Ascii("pem")] && g.revoked == {}
    requires BodyOf(g.platform, SELF_CITING).Ok?
    requires g.crypto.verify(Ascii("pem"), BodyOf(g.platform, SELF_CITING).value, Ascii("sig"))
    requires resolver(Ascii("p")) == Some(SELF_CITING)
    ensures HasParent(SELF_CITING) && StepUp(g, resolver, SELF_CITING) == Ok(SELF_CITING)
    ensures ClimbedTo(g, resolver, SELF_CITING, 0) == ClimbedTo(g, resolver, SELF_CITING, 1) == Some(SELF_CITING)
  {
    assert AttenuationViolation(g.platform, SELF_CITING, SELF_CITING) == None by {
      NothingNarrowsNothing(g.platform);
    }
  }

  lemma NothingNarrowsNothing(p: Platform)
    ensures Merge(p, NO_CONSTRAINTS, NO_CONSTRAINTS).Ok? && Normalise(p, NO_CONSTRAINTS).Ok?
    ensures BlockEq(Merge(p, NO_CONSTRAINTS, NO_CONSTRAINTS).value, Normalise(p, NO_CONSTRAINTS).value)
  {
  }

  // ---- What ALLOW means ---------------------------------------------------

  /** The parent is signed by a pinned key, is not revoked, and the child narrows it. */
  predicate LinkOk(g: GateView, child: Capability, parent: Capability) {
    Authentic(g, parent) && parent.tokenId !in g.revoked &&
    AttenuationViolation(g.platform, child, parent) == None
  }

  /** The resolver names `parent` for the parent id of `child`. */
  ghost predicate Answers(resolver: Resolver, child: Capability, parent: Capability) {
    HasParent(child) && resolver(child.parentId.value) == Some(parent)
  }

  /** The token and ancestors of it, each as the resolver names it, nearest first. */
  ghost predicate IsLineage(resolver: Resolver, t: Capability, l: seq<Capability>) {
    && l != [] && l[0] == t
    && forall i :: 1 <= i < |l| ==> Answers(resolver, l[i - 1], l[i])
  }

  /** The lineage reaches a root and every link of it is verified. */
  ghost predicate Verified(g: GateView, resolver: Resolver, t: Capability, l: seq<Capability>) {
    && IsLineage(resolver, t, l) && !HasParent(l[|l| - 1])
    && forall i :: 1 <= i < |l| ==> LinkOk(g, l[i - 1], l[i])
  }

  function Ids(l: seq<Capability>): (r: seq<Text>)
    ensures |r| == |l| && forall i :: 0 <= i < |l| ==> r[i] == l[i].tokenId
  {
    seq(|l|, i requires 0 <= i < |l| => l[i].tokenId)
  }

  /** A lineage through a passing link is the token and a lineage of its parent. */
  lemma VerifiedCons(g: GateView, resolver: Resolver, t: Capability, parent: Capability, l: seq<Capability>)
    requires HasParent(t) && StepUp(g, resolver, t) == Ok(parent)
    ensures Verified(g, resolver, t, l) ==> |l| > 1 && l[1] == parent && Verified(g, resolver, parent, l[1..])
    ensures Verified(g, resolver, parent, l) ==> Verified(g, resolver, t, [t] + l)
  {
    hide AttenuationViolation, Authentic, BodyOf;
    StepIsLink(g, resolver, t, parent);
    hide StepUp, LinkOk;
    if Verified(g, resolver, t, l) {
      assert |l| > 1 && Answers(resolver, l[0], l[1]);
      forall i | 1 <= i < |l| - 1
        ensures Answers(resolver, l[1..][i - 1], l[1..][i]) && LinkOk(g, l[1..][i - 1], l[1..][i])
      {
        assert Answers(resolver, l[i], l[i + 1]) && LinkOk(g, l[i], l[i + 1]);
      }
    }
    if Verified(g, resolver, parent, l) {
      var m := [t] + l;
      forall i | 1 <= i < |m|
        ensures Answers(resolver, m[i - 1], m[i]) && LinkOk(g, m[i - 1], m[i])
      {
        if i > 1 {
          assert Answers(resolver, l[i - 2], l[i - 1]) && LinkOk(g, l[i - 2], l[i - 1]);
        }
      }
    }
  }

  lemma StepIsLink(g: GateView, resolver: Resolver, t: Capability, parent: Capability)
    requires HasParent(t)
    ensures StepUp(g, resolver, t) == Ok(parent) <==> Answers(resolver, t, parent) && LinkOk(g, t, parent)
  {
    hide AttenuationViolation, BodyOf;
  }

  lemma VerifiedStuck(g: GateView, resolver: Resolver, t: Capability, l: seq<Capability>)
    requires HasParent(t) ==> StepUp(g, resolver, t).Err?
    ensures Verified(g, resolver, t, l) <==> !HasParent(t) && l == [t]
  {
    if HasParent(t) && |l| > 1 {
      StepIsLink(g, resolver, t, l[1]);
    }
    hide StepUp, LinkOk;
    if |l| > 1 {
      assert !(l[0] == t && Answers(resolver, l[0], l[1]) && LinkOk(g, l[0], l[1]));
    }
  }

  lemma WalkUpStuck(g: GateView, resolver: Resolver, t: Capability, n: nat)
    requires ClimbedTo(g, resolver, t, n) == None
    requires HasParent(t) ==> StepUp(g, resolver, t).Err?
    ensures WalkUp(g, resolver, t, n).Ok? <==> !HasParent(t)
    ensures !HasParent(t) ==> WalkUp(g, resolver, t, n) == Ok([])
  {
    hide StepUp;
  }

  /** The walk succeeds exactly when some lineage is verified up to a root, and reports its ids. */
  lemma {:induction false} WalkUpIff(g: GateView, resolver: Resolver, t: Capability, n: nat)
    requires ClimbedTo(g, resolver, t, n) == None
    ensures WalkUp(g, resolver, t, n).Ok? <==> exists l :: Verified(g, resolver, t, l)
    ensures forall l :: Verified(g, resolver, t, l) ==> WalkUp(g, resolver, t, n) == Ok(Ids(l[1..]))
    decreases n
  {
    hide StepUp, WalkUp, ClimbedTo, IsLineage, LinkOk;
    if HasParent(t) && StepUp(g, resolver, t).Ok? {
      var parent := StepUp(g, resolver, t).value;
      WalkUpStep(g, resolver, t, n, Ok(parent));
      WalkUpIff(g, resolver, parent, n - 1);
      hide Verified;
      forall l | Verified(g, resolver, t, l)
        ensures l != [] && WalkUp(g, resolver, t, n) == Ok(Ids(l[1..]))
      {
        VerifiedCons(g, resolver, t, parent, l);
        assert Ids(l[1..]) == [parent.tokenId] + Ids(l[1..][1..]);
      }
      if l :| Verified(g, resolver, parent, l) {
        VerifiedCons(g, resolver, t, parent, l);
      }
    } else {
      WalkUpStuck(g, resolver, t, n);
      forall l | Verified(g, resolver, t, l)
        ensures l != [] && WalkUp(g, resolver, t, n) == Ok(Ids(l[1..]))
      {
        VerifiedStuck(g, resolver, t, l);
        assert l[1..] == [];
      }
      VerifiedStuck(g, resolver, t, [t]);
    }
  }

  /** Conditions on the presented token alone. */
  ghost predicate TokenAdmits(g: GateView, t: Capability, call: Call) {
    && Authentic(g, t) && g.crypto.tokenIdOf(BodyOf(g.platform, t).value) == t.tokenId
    && t.tokenId !in g.revoked && (t.parentId.Some? ==> t.parentId.value !in g.revoked)
    && t.notBefore <= call.now < t.expiresAt
    && t.tool == call.tool
    && (call.agent.Some? ==> g.crypto.agentIdOk(call.agent.value) && AgentInScope(call.agent.value, t.agentId))
    && (t.actingFor != [] ==> call.actingFor == t.actingFor)
    && Accepts(g.platform, t.constraints, call.args)
    && (t.intent.Some? ==>
          && (t.intent.value.tools.Some? ==> t.tool in t.intent.value.tools.value)
          && (t.intent.value.constraints.Some? ==> Accepts(g.platform, t.intent.value.constraints.value, call.args)))
  }

  lemma AcceptsIff(p: Platform, t: Capability, args: Args)
    ensures CheckConstraints(p, t.constraints, args).None? <==> Accepts(p, t.constraints, args)
  {
  }

  /** ALLOW exactly when the token admits the call and a lineage of it is verified to a root; its ids are reported. */
  lemma AllowIff(g: GateView, t: Capability, call: Call, n: nat)
    requires Bounded(g, t, call, n)
    ensures Check(g, t, call, n).Allow? <==>
            && TokenAdmits(g, t, call)
            && (t.parentId.Some? ==> g.resolver.Some? && exists l :: Verified(g, g.resolver.value, t, l))
    ensures t.parentId.None? && Check(g, t, call, n).Allow? ==> Check(g, t, call, n).chain == []
    ensures t.parentId.Some? && Check(g, t, call, n).Allow? ==>
              forall l :: Verified(g, g.resolver.value, t, l) ==> Check(g, t, call, n).chain == Ids(l[1..])
  {
    hide WalkUp, Verified, Accepts, AgentInScope, Signed;
    AcceptsIff(g.platform, t, call.args);
    if NeedsClimb(g, t, call) {
      WalkUpIff(g, g.resolver.value, t, n);
    }
  }

  /** The call is inside one token's authority. */
  ghost predicate InsideAuthority(g: GateView, a: Capability, call: Call) {
    && Authentic(g, a) && a.tokenId !in g.revoked
    && a.tool == call.tool
    && a.notBefore <= call.now < a.expiresAt
    && (call.agent.Some? ==> AgentInScope(call.agent.value, a.agentId))
    && Accepts(g.platform, a.constraints, call.args)
  }

  /** Every file prefix narrows canonically along the lineage. */
  ghost predicate LineageCanonical(p: Platform, l: seq<Capability>) {
    forall i :: 1 <= i < |l| ==> PrefixesCanonical(p, l[i].constraints, l[i - 1].constraints)
  }

  lemma InsideParent(g: GateView, child: Capability, parent: Capability, call: Call)
    requires InsideAuthority(g, child, call)
    requires Authentic(g, parent) && parent.tokenId !in g.revoked
    requires AttenuationViolation(g.platform, child, parent) == None
    requires PrefixesCanonical(g.platform, parent.constraints, child.constraints)
    ensures InsideAuthority(g, parent, call)
  {
    AttenuationNarrows(g.platform, child, parent, call.args);
    if call.agent.Some? {
      ScopeTransitive(call.agent.value, child.agentId, parent.agentId);
    }
  }

  lemma {:induction false} InsideLineage(g: GateView, l: seq<Capability>, call: Call, i: nat)
    requires i < |l| && LineageCanonical(g.platform, l) && InsideAuthority(g, l[0], call)
    requires forall i :: 1 <= i < |l| ==> LinkOk(g, l[i - 1], l[i])
    ensures InsideAuthority(g, l[i], call)
  {
    if i > 0 {
      InsideLineage(g, l, call, i - 1);
      assert LinkOk(g, l[i - 1], l[i]);
      InsideParent(g, l[i - 1], l[i], call);
    }
  }

  /**
   An allowed call is inside the authority of the token and of every ancestor, up to a root.
   File prefixes must narrow canonically along the lineage.
   */
  lemma AllowedInsideEveryAncestor(g: GateView, t: Capability, call: Call, n: nat) returns (l: seq<Capability>)
    requires Bounded(g, t, call, n) && Check(g, t, call, n).Allow?
    ensures InsideAuthority(g, t, call)
    ensures t.parentId.Some? ==> g.resolver.Some? && Verified(g, g.resolver.value, t, l)
    ensures t.parentId.Some? && LineageCanonical(g.platform, l) ==> forall a :: a in l ==> InsideAuthority(g, a, call)
  {
    AllowIff(g, t, call, n);
    l := [t];
    if t.parentId.Some? {
      l :| Verified(g, g.resolver.value, t, l);
      if LineageCanonical(g.platform, l) {
        forall a | a in l
          ensures InsideAuthority(g, a, call)
        {
          var i :| 0 <= i < |l| && l[i] == a;
          InsideLineage(g, l, call, i);
        }
      }
    }
  }

  // ---- Revocation ---------------------------------------------------------

  ghost function WithRevoked(g: GateView, id: Text): GateView {
    g.(revoked := g.revoked + {id})
  }

  lemma RevokedStep(g: GateView, id: Text, resolver: Resolver, t: Capability)
    requires HasParent(t) && StepUp(WithRevoked(g, id), resolver, t).Ok?
    ensures StepUp(g, resolver, t) == StepUp(WithRevoked(g, id), resolver, t)
  {
    hide AttenuationViolation, BodyOf;
  }

  /** One more revocation stops a climb no later. */
  lemma {:induction false} RevocationStopsSooner(g: GateView, id: Text, resolver: Resolver, t: Capability, n: nat)
    ensures ClimbedTo(WithRevoked(g, id), resolver, t, n).Some? ==>
              ClimbedTo(WithRevoked(g, id), resolver, t, n) == ClimbedTo(g, resolver, t, n)
  {
    hide StepUp;
    if n > 0 {
      RevocationStopsSooner(g, id, resolver, t, n - 1);
      var c := ClimbedTo(WithRevoked(g, id), resolver, t, n - 1);
      if c.Some? && HasParent(c.value) && StepUp(WithRevoked(g, id), resolver, c.value).Ok? {
        RevokedStep(g, id, resolver, c.value);
      }
    }
  }

  /** Two lineages of a token agree as far as both go. */
  lemma {:induction false} LineagesAgree(resolver: Resolver, t: Capability, a: seq<Capability>, b: seq<Capability>,
                                         i: nat)
    requires IsLineage(resolver, t, a) && IsLineage(resolver, t, b) && i < |a| && i < |b|
    ensures a[i] == b[i]
  {
    if i > 0 {
      LineagesAgree(resolver, t, a, b, i - 1);
    }
  }

  lemma NoLongerThanVerified(g: GateView, resolver: Resolver, t: Capability, l: seq<Capability>, a: seq<Capability>)
    requires IsLineage(resolver, t, l) && l != [] && !HasParent(l[|l| - 1]) && IsLineage(resolver, t, a)
    ensures |a| <= |l|
  {
    hide IsLineage, Answers;
    if |l| < |a| {
      ChildHasParent(resolver, t, a, |l|);
      LineagesAgree(resolver, t, a, l, |l| - 1);
    }
  }

  lemma ChildHasParent(resolver: Resolver, t: Capability, a: seq<Capability>, i: nat)
    requires IsLineage(resolver, t, a) && 1 <= i < |a|
    ensures HasParent(a[i - 1])
  {
    assert Answers(resolver, a[i - 1], a[i]);
  }

  /** A verified lineage contains every ancestor the resolver names, and none of them is revoked. */
  lemma VerifiedHasNoRevoked(g: GateView, resolver: Resolver, t: Capability, l: seq<Capability>, a: seq<Capability>,
                             id: Text)
    requires Verified(g, resolver, t, l) && IsLineage(resolver, t, a)
    requires t.tokenId !in g.revoked && id in g.revoked
    ensures id !in Ids(a)
  {
    forall i | 0 <= i < |a|
      ensures a[i].tokenId != id
    {
      NoLongerThanVerified(g, resolver, t, l, a);
      LineagesAgree(resolver, t, a, l, i);
      if i > 0 {
        assert LinkOk(g, l[i - 1], l[i]);
      }
    }
  }

  /** Revoking a token denies it and every token descended from it, and never admits a new call. */
  lemma RevocationReachesDescendants(g: GateView, id: Text, t: Capability, call: Call, n: nat)
    requires Bounded(g, t, call, n)
    ensures Bounded(WithRevoked(g, id), t, call, n)
    ensures Check(WithRevoked(g, id), t, call, n).Allow? ==> Check(g, t, call, n).Allow?
    ensures id == t.tokenId ==> Check(WithRevoked(g, id), t, call, n).Deny?
    ensures t.parentId.Some? && g.resolver.Some? ==>
              forall a :: IsLineage(g.resolver.value, t, a) && id in Ids(a) ==>
                Check(WithRevoked(g, id), t, call, n).Deny?
  {
    hide WalkUp, Check, Accepts, AgentInScope, Signed, ClimbedTo, AttenuationViolation, BindingDenial, IsLineage;
    var h := WithRevoked(g, id);
    RevokedBounded(g, id, t, call, n);
    AllowIff(g, t, call, n);
    AllowIff(h, t, call, n);
    if TokenAdmits(h, t, call) {
      RevokedAdmits(g, id, t, call);
    }
    if Check(h, t, call, n).Allow? && t.parentId.Some? {
      var l :| Verified(h, g.resolver.value, t, l);
      RevokedVerified(g, id, g.resolver.value, t, l);
      forall a | IsLineage(g.resolver.value, t, a)
        ensures id !in Ids(a)
      {
        VerifiedHasNoRevoked(h, g.resolver.value, t, l, a, id);
      }
    }
  }

  lemma RevokedVerified(g: GateView, id: Text, resolver: Resolver, t: Capability, l: seq<Capability>)
    requires Verified(WithRevoked(g, id), resolver, t, l)
    ensures Verified(g, resolver, t, l)
  {
    hide AttenuationViolation, BodyOf;
    forall i | 1 <= i < |l|
      ensures LinkOk(g, l[i - 1], l[i])
    {
      assert LinkOk(WithRevoked(g, id), l[i - 1], l[i]);
    }
  }

  lemma RevokedAdmits(g: GateView, id: Text, t: Capability, call: Call)
    requires TokenAdmits(WithRevoked(g, id), t, call)
    ensures TokenAdmits(g, t, call) && id != t.tokenId
  {
    hide Accepts, BodyOf, AgentInScope;
  }

  lemma RevokedBounded(g: GateView, id: Text, t: Capability, call: Call, n: nat)
    requires Bounded(g, t, call, n)
    ensures Bounded(WithRevoked(g, id), t, call, n)
  {
    hide ClimbedTo;
    var h := WithRevoked(g, id);
    if NeedsClimb(h, t, call) {
      assert NeedsClimb(g, t, call) by {
        BindingIgnoresRevocation(g, id, t, call);
      }
      RevocationStopsSooner(g, id, g.resolver.value, t, n);
    }
  }

  lemma BindingIgnoresRevocation(g: GateView, id: Text, t: Capability, call: Call)
    ensures BindingDenial(WithRevoked(g, id), t, call) == BindingDenial(g, t, call)
    ensures IdentityDenial(WithRevoked(g, id), t, call.now).None? ==> IdentityDenial(g, t, call.now).None?
  {
  }

  // ---- The gate object ----------------------------------------------------

  class CapabilityGate {
    const platform: Platform
    const crypto: Crypto
    const issuers: map<Text, Text>
    const resolver: Option<Resolver>
    var revoked: set<Text>

    constructor (platform: Platform, crypto: Crypto, issuers: map<Text, Text>, resolver: Option<Resolver>,
                 revoked: set<Text>)
      requires issuers != map[]
      ensures View() == GateView(platform, crypto, issuers, resolver, revoked)
    {
      this.platform, this.crypto, this.issuers, this.resolver := platform, crypto, issuers, resolver;
      this.revoked := revoked;
    }

    function View(): GateView
      reads this
    {
      GateView(platform, crypto, issuers, resolver, revoked)
    }

    method Revoke(id: Text)
      modifies this
      ensures View() == old(View()).(revoked := old(revoked) + {id})
    {
      revoked := revoked + {id};
    }

    /** `_verify_ancestor_chain`: the loop that climbs to the root, from any token from which it ends. */
    method VerifyAncestorChain(token: Capability, resolver: Resolver, ghost n: nat)
      returns (chain: seq<Text>, denial: Option<Denial>)
      requires ClimbedTo(View(), resolver, token, n) == None
      ensures match WalkUp(View(), resolver, token, n)
              case Ok(ids) => denial == None && chain == ids
              case Err(d) => denial == Some(d)
    {
      hide ClimbedTo, WalkUp, Signed, AttenuationViolation;
      chain := [];
      var current := token;
      ghost var g, left := View(), n;
      ghost var outcome := WalkUp(g, resolver, token, n);
      assert outcome.Ok? ==> [] + outcome.value == outcome.value;
      while HasParent(current)
        invariant ClimbedTo(g, resolver, current, left) == None
        invariant outcome == Prepended(chain, WalkUp(g, resolver, current, left))
        decreases left
      {
        WalkUpStep(g, resolver, current, left, StepUp(g, resolver, current));
        var resolved := resolver(current.parentId.value);
        if resolved.None? {
          return chain, Some(UnresolvedParent);
        }
        var parent := resolved.value;
        if parent.keyId !in issuers {
          return chain, Some(UntrustedParentKey);
        }
        if !Signed(View(), parent, issuers[parent.keyId]) {
          return chain, Some(ParentBadSignature);
        }
        if parent.tokenId in revoked {
          return chain, Some(AncestorRevoked);
        }
        var violation := AttenuationViolation(platform, current, parent);
        if violation.Some? {
          return chain, Some(InvalidAttenuation(violation.value));
        }
        assert StepUp(g, resolver, current) == Ok(parent);
        PrependedTwice(chain, [parent.tokenId], WalkUp(g, resolver, parent, left - 1));
        chain := chain + [parent.tokenId];
        current, left := parent, left - 1;
      }
      WalkUpRoot(g, resolver, current, left);
      assert chain + [] == chain;
      return chain, None;
    }

    /** `check`: identity, then binding, then the chain. */
    method CheckCall(token: Capability, call: Call, ghost n: nat) returns (decision: Decision)
      requires Bounded(View(), token, call, n)
      ensures decision == Check(View(), token, call, n)
    {
      var identity := IdentityDenial(View(), token, call.now);
      if identity.Some? {
        return Deny(identity.value, false);
      }
      var misuse := BindingDenial(View(), token, call);
      if misuse.Some? {
        return Deny(misuse.value, true);
      }
      if token.parentId.None? {
        return Allow([]);
      }
      if resolver.None? {
        return Deny(NoResolver, false);
      }
      var chain, denial := VerifyAncestorChain(token, resolver.value, n);
      if denial.Some? {
        return Deny(denial.value, false);
      }
      return Allow(chain);
    }
  }

  /** Making a gate: refused without a trusted issuer. */
  method Open(platform: Platform, crypto: Crypto, issuers: map<Text, Text>, resolver: Option<Resolver>,
              revoked: set<Text>)
    returns (gate: CapabilityGate?)
    ensures gate == null <==> issuers == map[]
    ensures gate != null ==> fresh(gate) && gate.View() == GateView(platform, crypto, issuers, resolver, revoked)
  {
    if issuers == map[] {
      return null;
    }
    gate := new CapabilityGate(platform, crypto, issuers, resolver, revoked);
  }
}
