/** Every answer of the gate: which checks pass, which refusal comes first, and whether it counts as misuse. */
module GateMeaning {
  import opened Basics
  import opened Canon
  import opened Values
  import opened Policy
  import opened PolicyMeaning
  import opened Attenuation
  import opened Gate

  /** The refusals that depend on the token and the call alone. */
  predicate OwnDenial(d: Denial) {
    match d
    case NoResolver | UnresolvedParent | UntrustedParentKey | ParentBadSignature | AncestorRevoked => false
    case InvalidAttenuation(_) => false
    case _ => true
  }

  /** The place of a refusal in the gate's order; from 7 on the identity of the token is established. */
  function Turn(d: Denial): nat {
    match d
    case UnknownKey => 0
    case BadSignature => 1
    case IdMismatch => 2
    case Revoked => 3
    case ParentRevoked => 4
    case NotYetValid => 5
    case Expired => 6
    case WrongTool => 7
    case MalformedAgent => 8
    case AgentMismatch => 9
    case ActingForMismatch => 10
    case ConstraintViolated(kind) => 11 + Place(kind)
    case IntentTool => 19
    case IntentConstraint => 20
    case _ => 21
  }

  /** The signed body of the token is authentic under the key. */
  ghost predicate AuthenticUnder(g: GateView, t: Capability, pem: Text) {
    exists body :: BodyOf(g.platform, t) == Ok(body) && g.crypto.verify(pem, body, t.signature)
  }

  /** The check behind a refusal passes. */
  ghost predicate Passes(g: GateView, t: Capability, call: Call, d: Denial) {
    match d
    case UnknownKey => t.keyId in g.issuers
    case BadSignature => t.keyId in g.issuers && AuthenticUnder(g, t, g.issuers[t.keyId])
    case IdMismatch => exists body :: BodyOf(g.platform, t) == Ok(body) && g.crypto.tokenIdOf(body) == t.tokenId
    case Revoked => t.tokenId !in g.revoked
    case ParentRevoked => forall id :: t.parentId == Some(id) ==> id !in g.revoked
    case NotYetValid => t.notBefore <= call.now
    case Expired => call.now < t.expiresAt
    case WrongTool => call.tool == t.tool
    case MalformedAgent => forall agent :: call.agent == Some(agent) ==> g.crypto.agentIdOk(agent)
    case AgentMismatch =>
      forall agent :: call.agent == Some(agent) ==> agent == t.agentId || t.agentId + Ascii(".") <= agent
    case ActingForMismatch => t.actingFor == [] || t.actingFor == call.actingFor
    case ConstraintViolated(kind) => Meets(g.platform, t.constraints, call.args, kind)
    case IntentTool => forall i :: t.intent == Some(i) && i.tools.Some? ==> t.tool in i.tools.value
    case IntentConstraint =>
      forall i, kind :: t.intent == Some(i) && i.constraints.Some? ==>
        Meets(g.platform, i.constraints.value, call.args, kind)
    case _ => true
  }

  lemma IdentityFirst(g: GateView, t: Capability, call: Call, d: Denial)
    requires Turn(d) < 7
    ensures IdentityDenial(g, t, call.now) == Some(d) <==>
            !Passes(g, t, call, d) && forall e :: Turn(e) < Turn(d) ==> Passes(g, t, call, e)
  {
    assert Turn(UnknownKey) == 0 && Turn(BadSignature) == 1 && Turn(IdMismatch) == 2 && Turn(Revoked) == 3;
    assert Turn(ParentRevoked) == 4 && Turn(NotYetValid) == 5 && Turn(Expired) == 6;
    hide BodyOf;
  }

  lemma IdentityNone(g: GateView, t: Capability, call: Call)
    ensures IdentityDenial(g, t, call.now) == None <==> forall e :: Turn(e) < 7 ==> Passes(g, t, call, e)
    ensures IdentityDenial(g, t, call.now).Some? ==> Turn(IdentityDenial(g, t, call.now).value) < 7
  {
    assert Turn(UnknownKey) == 0 && Turn(BadSignature) == 1 && Turn(IdMismatch) == 2 && Turn(Revoked) == 3;
    assert Turn(ParentRevoked) == 4 && Turn(NotYetValid) == 5 && Turn(Expired) == 6;
    hide BodyOf;
  }

  /** The checks of the binding stage pass in front of `d`. */
  ghost predicate BindingPasses(g: GateView, t: Capability, call: Call, before: nat) {
    forall e :: 7 <= Turn(e) < before ==> Passes(g, t, call, e)
  }

  lemma KindsPass(g: GateView, t: Capability, call: Call)
    ensures CheckConstraints(g.platform, t.constraints, call.args) == None <==>
            forall kind :: Passes(g, t, call, ConstraintViolated(kind))
    ensures forall kind :: CheckConstraints(g.platform, t.constraints, call.args) == Some(kind) <==>
                             && !Passes(g, t, call, ConstraintViolated(kind))
                             && forall k :: Place(k) < Place(kind) ==> Passes(g, t, call, ConstraintViolated(k))
  {
    AcceptsIffMet(g.platform, t.constraints, call.args);
    forall kind
      ensures CheckConstraints(g.platform, t.constraints, call.args) == Some(kind) <==>
              && !Meets(g.platform, t.constraints, call.args, kind)
              && forall k :: Place(k) < Place(kind) ==> Meets(g.platform, t.constraints, call.args, k)
    {
      RefusalNamesFirst(g.platform, t.constraints, call.args, kind);
    }
    hide Meets, CheckConstraints, Place;
    assert forall kind ::
        Passes(g, t, call, ConstraintViolated(kind)) == Meets(g.platform, t.constraints, call.args, kind);
  }

  lemma IntentPasses(g: GateView, t: Capability, call: Call)
    ensures Turn(IntentTool) == 19 && Turn(IntentConstraint) == 20
    ensures IntentDenial(g, t, call.args) == Some(IntentTool) <==> !Passes(g, t, call, IntentTool)
    ensures IntentDenial(g, t, call.args) == Some(IntentConstraint) <==>
            Passes(g, t, call, IntentTool) && !Passes(g, t, call, IntentConstraint)
    ensures IntentDenial(g, t, call.args).Some? ==>
              IntentDenial(g, t, call.args).value in {IntentTool, IntentConstraint}
  {
    if t.intent.Some? && t.intent.value.constraints.Some? {
      AcceptsIffMet(g.platform, t.intent.value.constraints.value, call.args);
    }
    hide Meets, CheckConstraints;
  }

  lemma CallerPasses(g: GateView, t: Capability, call: Call)
    ensures Turn(WrongTool) == 7 && Turn(MalformedAgent) == 8
    ensures Turn(AgentMismatch) == 9 && Turn(ActingForMismatch) == 10
    ensures Passes(g, t, call, WrongTool) <==> t.tool == call.tool
    ensures Passes(g, t, call, MalformedAgent) <==> (call.agent.Some? ==> g.crypto.agentIdOk(call.agent.value))
    ensures Passes(g, t, call, AgentMismatch) <==> (call.agent.Some? ==> AgentInScope(call.agent.value, t.agentId))
    ensures Passes(g, t, call, ActingForMismatch) <==>
            !(t.actingFor != [] && (call.actingFor == [] || call.actingFor != t.actingFor))
  {
  }

  lemma Turns(kind: Kind)
    ensures Turn(WrongTool) == 7 && Turn(MalformedAgent) == 8 && Turn(AgentMismatch) == 9
    ensures Turn(ActingForMismatch) == 10 && Turn(ConstraintViolated(kind)) == 11 + Place(kind)
    ensures 0 <= Place(kind) < 8
    ensures Turn(IntentTool) == 19 && Turn(IntentConstraint) == 20
  {
  }

  /** What passes in front of each place of the binding stage. */
  lemma CallerBefore(g: GateView, t: Capability, call: Call)
    ensures BindingPasses(g, t, call, 7)
    ensures BindingPasses(g, t, call, 8) <==> Passes(g, t, call, WrongTool)
    ensures BindingPasses(g, t, call, 9) <==> BindingPasses(g, t, call, 8) && Passes(g, t, call, MalformedAgent)
    ensures BindingPasses(g, t, call, 10) <==> BindingPasses(g, t, call, 9) && Passes(g, t, call, AgentMismatch)
    ensures BindingPasses(g, t, call, 11) <==> BindingPasses(g, t, call, 10) && Passes(g, t, call, ActingForMismatch)
  {
    Turns(Unmodelled);
    hide Passes;
  }

  lemma KindBefore(g: GateView, t: Capability, call: Call, kind: Kind)
    ensures BindingPasses(g, t, call, 11 + Place(kind)) <==>
            BindingPasses(g, t, call, 11)
            && forall k :: Place(k) < Place(kind) ==> Passes(g, t, call, ConstraintViolated(k))
  {
    Turns(kind);
    forall k ensures Turn(ConstraintViolated(k)) == 11 + Place(k) {}
    hide Passes, Place;
  }

  lemma IntentBefore(g: GateView, t: Capability, call: Call)
    ensures BindingPasses(g, t, call, 19) <==>
            BindingPasses(g, t, call, 11) && forall k :: Passes(g, t, call, ConstraintViolated(k))
    ensures BindingPasses(g, t, call, 20) <==> BindingPasses(g, t, call, 19) && Passes(g, t, call, IntentTool)
    ensures BindingPasses(g, t, call, 21) <==> BindingPasses(g, t, call, 20) && Passes(g, t, call, IntentConstraint)
  {
    forall k ensures Turn(ConstraintViolated(k)) == 11 + Place(k) && 0 <= Place(k) < 8 {
      Turns(k);
    }
    hide Passes, Place;
  }

  lemma CallerFirst(g: GateView, t: Capability, call: Call, d: Denial)
    requires d in {WrongTool, MalformedAgent, AgentMismatch, ActingForMismatch}
    ensures BindingDenial(g, t, call) == Some(d) <==> !Passes(g, t, call, d) && BindingPasses(g, t, call, Turn(d))
  {
    Turns(Unmodelled);
    CallerPasses(g, t, call);
    CallerBefore(g, t, call);
    IntentPasses(g, t, call);
    hide Passes, CheckConstraints, IntentDenial, AgentInScope, BindingPasses, Turn;
  }

  /** Past the checks of the caller, the stage is the constraints and then the intent. */
  lemma PastCaller(g: GateView, t: Capability, call: Call)
    ensures var checked := CheckConstraints(g.platform, t.constraints, call.args);
            var d := BindingDenial(g, t, call);
            if !BindingPasses(g, t, call, 11) then
              d in {Some(WrongTool), Some(MalformedAgent), Some(AgentMismatch), Some(ActingForMismatch)}
            else if checked.Some? then d == Some(ConstraintViolated(checked.value))
            else d == IntentDenial(g, t, call.args)
  {
    CallerPasses(g, t, call);
    CallerBefore(g, t, call);
    hide Passes, CheckConstraints, IntentDenial, AgentInScope, BindingPasses;
  }

  lemma KindFirst(g: GateView, t: Capability, call: Call, kind: Kind)
    ensures BindingDenial(g, t, call) == Some(ConstraintViolated(kind)) <==>
            && !Passes(g, t, call, ConstraintViolated(kind))
            && BindingPasses(g, t, call, Turn(ConstraintViolated(kind)))
  {
    Turns(kind);
    PastCaller(g, t, call);
    KindsPass(g, t, call);
    KindBefore(g, t, call, kind);
    IntentPasses(g, t, call);
    hide Passes, CheckConstraints, IntentDenial, BindingDenial, BindingPasses, Turn, Place;
  }

  lemma IntentFirst(g: GateView, t: Capability, call: Call, d: Denial)
    requires d == IntentTool || d == IntentConstraint
    ensures BindingDenial(g, t, call) == Some(d) <==> !Passes(g, t, call, d) && BindingPasses(g, t, call, Turn(d))
  {
    Turns(Unmodelled);
    PastCaller(g, t, call);
    KindsPass(g, t, call);
    IntentBefore(g, t, call);
    IntentPasses(g, t, call);
    hide Passes, CheckConstraints, IntentDenial, BindingDenial, BindingPasses, Turn, Place;
  }

  lemma BindingFirst(g: GateView, t: Capability, call: Call, d: Denial)
    requires 7 <= Turn(d) < 21
    ensures BindingDenial(g, t, call) == Some(d) <==> !Passes(g, t, call, d) && BindingPasses(g, t, call, Turn(d))
  {
    hide Passes, BindingDenial, BindingPasses;
    match d
    case ConstraintViolated(kind) => KindFirst(g, t, call, kind);
    case IntentTool => IntentFirst(g, t, call, d);
    case IntentConstraint => IntentFirst(g, t, call, d);
    case _ => CallerFirst(g, t, call, d);
  }

  lemma BindingNone(g: GateView, t: Capability, call: Call)
    ensures BindingDenial(g, t, call) == None <==> BindingPasses(g, t, call, 21)
    ensures BindingDenial(g, t, call).Some? ==> 7 <= Turn(BindingDenial(g, t, call).value) < 21
  {
    forall kind ensures Turn(ConstraintViolated(kind)) == 11 + Place(kind) && 0 <= Place(kind) < 8 {
      Turns(kind);
    }
    Turns(Unmodelled);
    PastCaller(g, t, call);
    KindsPass(g, t, call);
    IntentBefore(g, t, call);
    IntentPasses(g, t, call);
    hide Passes, CheckConstraints, IntentDenial, BindingDenial, BindingPasses, Turn, Place;
  }

  // ---- The chain ----------------------------------------------------------

  /** Why the link from `child` to its parent is refused. */
  ghost predicate LinkRefused(g: GateView, resolver: Resolver, child: Capability, d: Denial) {
    HasParent(child) &&
    match resolver(child.parentId.value)
    case None => d == UnresolvedParent
    case Some(parent) =>
      match d
      case UntrustedParentKey => parent.keyId !in g.issuers
      case ParentBadSignature => parent.keyId in g.issuers && !AuthenticUnder(g, parent, g.issuers[parent.keyId])
      case AncestorRevoked =>
        && parent.keyId in g.issuers && AuthenticUnder(g, parent, g.issuers[parent.keyId])
        && parent.tokenId in g.revoked
      case InvalidAttenuation(v) =>
        && parent.keyId in g.issuers && AuthenticUnder(g, parent, g.issuers[parent.keyId])
        && parent.tokenId !in g.revoked && AttenuationViolation(g.platform, child, parent) == Some(v)
      case _ => false
  }

  /** The links of a lineage pass, and the one above its last token is refused. */
  ghost predicate RefusedAbove(g: GateView, resolver: Resolver, t: Capability, l: seq<Capability>, d: Denial) {
    && IsLineage(resolver, t, l) && (forall i :: 1 <= i < |l| ==> LinkOk(g, l[i - 1], l[i]))
    && LinkRefused(g, resolver, l[|l| - 1], d)
  }

  lemma StepRefused(g: GateView, resolver: Resolver, t: Capability, d: Denial)
    requires HasParent(t)
    ensures StepUp(g, resolver, t) == Err(d) <==> LinkRefused(g, resolver, t, d)
  {
    hide AttenuationViolation, BodyOf;
  }

  lemma RefusedCons(g: GateView, resolver: Resolver, t: Capability, parent: Capability, l: seq<Capability>, d: Denial)
    requires HasParent(t) && StepUp(g, resolver, t) == Ok(parent)
    ensures RefusedAbove(g, resolver, t, l, d) ==>
              |l| > 1 && l[1] == parent && RefusedAbove(g, resolver, parent, l[1..], d)
    ensures RefusedAbove(g, resolver, parent, l, d) ==> RefusedAbove(g, resolver, t, [t] + l, d)
  {
    StepIsLink(g, resolver, t, parent);
    StepRefused(g, resolver, t, d);
    hide StepUp, LinkOk, LinkRefused;
    assert RefusedAbove(g, resolver, t, l, d) ==> |l| > 1;
    if RefusedAbove(g, resolver, t, l, d) {
      assert Answers(resolver, l[0], l[1]);
      forall i | 1 <= i < |l| - 1
        ensures Answers(resolver, l[1..][i - 1], l[1..][i]) && LinkOk(g, l[1..][i - 1], l[1..][i])
      {
        assert Answers(resolver, l[i], l[i + 1]) && LinkOk(g, l[i], l[i + 1]);
      }
    }
    if RefusedAbove(g, resolver, parent, l, d) {
      var m := [t] + l;
      forall i | 1 <= i < |m|
        ensures Answers(resolver, m[i - 1], m[i]) && LinkOk(g, m[i - 1], m[i])
      {
        if i > 1 {
          assert Answers(resolver, l[i - 2], l[i - 1]) && LinkOk(g, l[i - 2], l[i - 1]);
        }
      }
    }
  }

  lemma RefusedHere(g: GateView, resolver: Resolver, t: Capability, l: seq<Capability>, d: Denial)
    requires HasParent(t) ==> StepUp(g, resolver, t).Err?
    ensures RefusedAbove(g, resolver, t, l, d) <==>
            l == [t] && HasParent(t) && StepUp(g, resolver, t) == Err(d)
  {
    if HasParent(t) {
      StepRefused(g, resolver, t, d);
      if |l| > 1 {
        StepIsLink(g, resolver, t, l[1]);
      }
    }
    hide StepUp, LinkOk;
    if |l| > 1 {
      assert !(l[0] == t && Answers(resolver, l[0], l[1]) && LinkOk(g, l[0], l[1]));
    }
  }

  /** The climb is refused for the reason of the first link that does not pass. */
  lemma {:induction false} WalkUpRefusedIff(g: GateView, resolver: Resolver, t: Capability, n: nat, d: Denial)
    requires ClimbedTo(g, resolver, t, n) == None
    ensures WalkUp(g, resolver, t, n) == Err(d) <==> exists l :: RefusedAbove(g, resolver, t, l, d)
    decreases n
  {
    hide StepUp, WalkUp, ClimbedTo, RefusedAbove;
    if HasParent(t) && StepUp(g, resolver, t).Ok? {
      var parent := StepUp(g, resolver, t).value;
      WalkUpStep(g, resolver, t, n, Ok(parent));
      WalkUpRefusedIff(g, resolver, parent, n - 1, d);
      if l :| RefusedAbove(g, resolver, t, l, d) {
        RefusedCons(g, resolver, t, parent, l, d);
      }
      if l :| RefusedAbove(g, resolver, parent, l, d) {
        RefusedCons(g, resolver, t, parent, l, d);
      }
    } else {
      if HasParent(t) {
        WalkUpStep(g, resolver, t, n, StepUp(g, resolver, t));
      } else {
        WalkUpRoot(g, resolver, t, n);
      }
      RefusedHere(g, resolver, t, [t], d);
      if l :| RefusedAbove(g, resolver, t, l, d) {
        RefusedHere(g, resolver, t, l, d);
      }
    }
  }

  // ---- The decision -------------------------------------------------------

  ghost predicate AllPass(g: GateView, t: Capability, call: Call, before: nat) {
    forall e :: Turn(e) < before ==> Passes(g, t, call, e)
  }

  /** A call is denied for the first check of token and call that fails; it is misuse once identity is established. */
  lemma OwnDenialIff(g: GateView, t: Capability, call: Call, n: nat, d: Denial)
    requires Bounded(g, t, call, n) && Turn(d) < 21
    ensures Check(g, t, call, n) == Deny(d, Turn(d) >= 7) <==>
            !Passes(g, t, call, d) && AllPass(g, t, call, Turn(d))
    ensures Check(g, t, call, n) != Deny(d, Turn(d) < 7)
  {
    IdentityNone(g, t, call);
    BindingNone(g, t, call);
    if Turn(d) < 7 {
      IdentityFirst(g, t, call, d);
    } else {
      BindingFirst(g, t, call, d);
    }
    if NeedsClimb(g, t, call) && WalkUp(g, g.resolver.value, t, n).Err? {
      ChainReasons(g, g.resolver.value, t, n);
    }
    hide IdentityDenial, BindingDenial, Passes, WalkUp, ClimbedTo;
  }

  lemma ChainReasons(g: GateView, resolver: Resolver, t: Capability, n: nat)
    requires ClimbedTo(g, resolver, t, n) == None && WalkUp(g, resolver, t, n).Err?
    ensures Turn(WalkUp(g, resolver, t, n).error) == 21 && WalkUp(g, resolver, t, n).error != NoResolver
  {
    var d := WalkUp(g, resolver, t, n).error;
    WalkUpRefusedIff(g, resolver, t, n, d);
    hide WalkUp, ClimbedTo, AttenuationViolation, AuthenticUnder;
    var l :| RefusedAbove(g, resolver, t, l, d);
  }

  lemma CheckBeyond(g: GateView, t: Capability, call: Call, n: nat)
    requires Bounded(g, t, call, n) && AllPass(g, t, call, 21)
    ensures t.parentId.None? ==> Check(g, t, call, n) == Allow([])
    ensures t.parentId.Some? && g.resolver.None? ==> Check(g, t, call, n) == Deny(NoResolver, false)
    ensures t.parentId.Some? && g.resolver.Some? ==>
              && ClimbedTo(g, g.resolver.value, t, n) == None
              && var climbed := WalkUp(g, g.resolver.value, t, n);
                 Check(g, t, call, n) == if climbed.Ok? then Allow(climbed.value) else Deny(climbed.error, false)
  {
    IdentityNone(g, t, call);
    BindingNone(g, t, call);
    hide IdentityDenial, BindingDenial, Passes, WalkUp, ClimbedTo;
  }

  /**
   When those checks pass the chain decides, never as misuse: no resolver, the first link above
   that does not pass, or ALLOW with the ids of a lineage verified up to a root.
   */
  lemma ChainDecides(g: GateView, t: Capability, call: Call, n: nat)
    requires Bounded(g, t, call, n) && AllPass(g, t, call, 21)
    ensures t.parentId.None? ==> Check(g, t, call, n) == Allow([])
    ensures t.parentId.Some? && g.resolver.None? ==> Check(g, t, call, n) == Deny(NoResolver, false)
    ensures t.parentId.Some? && g.resolver.Some? ==>
              forall d :: Check(g, t, call, n) == Deny(d, false) <==>
                          exists l :: RefusedAbove(g, g.resolver.value, t, l, d)
    ensures t.parentId.Some? && g.resolver.Some? ==>
              forall l :: Verified(g, g.resolver.value, t, l) ==> Check(g, t, call, n) == Allow(Ids(l[1..]))
  {
    hide *;
    CheckBeyond(g, t, call, n);
    if t.parentId.Some? && g.resolver.Some? {
      WalkUpIff(g, g.resolver.value, t, n);
      forall d
        ensures Check(g, t, call, n) == Deny(d, false) <==> exists l :: RefusedAbove(g, g.resolver.value, t, l, d)
      {
        WalkUpRefusedIff(g, g.resolver.value, t, n, d);
      }
    }
  }

  /** Only a call that passes every check of its own is decided by the chain, so only then must the climb end. */
  lemma NeedsClimbIff(g: GateView, t: Capability, call: Call)
    ensures NeedsClimb(g, t, call) <==> AllPass(g, t, call, 21) && t.parentId.Some? && g.resolver.Some?
  {
    IdentityNone(g, t, call);
    BindingNone(g, t, call);
    hide IdentityDenial, BindingDenial, Passes, Turn;
  }

  /** An empty parent id is no parent to the climb, but the decision still asks for a resolver. */
  lemma EmptyParentIsRoot(g: GateView, t: Capability, call: Call, n: nat)
    requires Bounded(g, t, call, n) && AllPass(g, t, call, 21) && t.parentId == Some([])
    ensures Check(g, t, call, n) == if g.resolver.Some? then Allow([]) else Deny(NoResolver, false)
  {
    hide *;
    ChainDecides(g, t, call, n);
    if g.resolver.Some? {
      AloneVerified(g, g.resolver.value, t);
      assert Ids([t][1..]) == [];
    }
  }

  lemma AloneVerified(g: GateView, resolver: Resolver, t: Capability)
    requires t.parentId == Some([])
    ensures Verified(g, resolver, t, [t]) && Ids([t][1..]) == []
  {
  }
}
