/** When evidence passes, when it degrades, and when a degraded verdict denies or reduces. */
module EqrMeaning {
  import opened Basics
  import opened Canon
  import opened Policy
  import opened Narrowing
  import opened MergeMeaning
  import opened Attenuation
  import opened MintMeaning
  import opened Eqr

  /** The ladder of source classes, weakest first. */
  const LADDER: seq<string> := ["unverified", "self-attested", "third-party", "certified"]

  /** A class on the ladder is at least a required one; one outside it never is. */
  ghost predicate AtLeastAs(c: string, required: string) {
    exists i, j :: 0 <= i <= j < |LADDER| && LADDER[i] == required && LADDER[j] == c
  }

  lemma RankIsPlace(c: string)
    ensures forall i :: 0 <= i < |LADDER| && LADDER[i] == c ==> SourceRank(c) == i
    ensures SourceRank(c) >= 0 ==> SourceRank(c) < |LADDER| && LADDER[SourceRank(c)] == c
    ensures SourceRank(c) >= -1
  {
    assert LADDER[0] == "unverified" && LADDER[1] == "self-attested" && LADDER[2] == "third-party";
    assert |LADDER[0]| == 10 && |LADDER[1]| == 13 && |LADDER[2]| == 11 && |LADDER[3]| == 9;
  }

  /** A usable record: of some kind, observed at a time that has come. */
  ghost predicate Usable(e: Evidence, now: int) {
    e.kind != "" && 0 <= e.observedAt <= now
  }

  ghost predicate Fresh(e: Evidence, q: Requirement, now: int) {
    now <= e.observedAt + q.maxAge
  }

  ghost predicate Strong(e: Evidence, q: Requirement) {
    AtLeastAs(e.sourceClass, q.minClass) && q.floor <= e.confidence
  }

  /** A record passes when it is usable, fresh and strong; otherwise it is judged by the first of these it lacks. */
  lemma RecordVerdictIff(e: Evidence, q: Requirement, now: int)
    requires Loaded(q)
    ensures Evaluate(e, q, now) == Passing <==> Usable(e, now) && Fresh(e, q, now) && Strong(e, q)
    ensures Evaluate(e, q, now) == Verdict.Unknown <==> !Usable(e, now)
    ensures Evaluate(e, q, now) == Stale <==> Usable(e, now) && !Fresh(e, q, now)
    ensures Evaluate(e, q, now) == BelowFloor <==> Usable(e, now) && Fresh(e, q, now) && !Strong(e, q)
  {
    RankIsPlace(e.sourceClass);
    RankIsPlace(q.minClass);
    hide SourceRank;
  }

  /** Evidence of the kind is on record and every such record passes. */
  ghost predicate EvidencePasses(q: Requirement, es: seq<Evidence>, now: int) {
    && (exists e :: e in es && e.kind == q.kind)
    && forall e :: e in es && e.kind == q.kind ==> Usable(e, now) && Fresh(e, q, now) && Strong(e, q)
  }

  lemma PassesIff(q: Requirement, es: seq<Evidence>, now: int)
    requires Loaded(q)
    ensures WorstVerdict(q, es, now) == Passing <==> EvidencePasses(q, es, now)
  {
    PassingIff(q, es, now);
    forall e ensures Evaluate(e, q, now) == Passing <==> Usable(e, now) && Fresh(e, q, now) && Strong(e, q) {
      RecordVerdictIff(e, q, now);
    }
    hide WorstVerdict, Evaluate, Usable, Fresh, Strong;
  }

  /** The reduced scope can be granted: it is declared, the token is signed and in time, and the blocks merge. */
  ghost predicate Reducible(p: Platform, q: Requirement, token: Capability, clock: int) {
    && q.reduced.Some? && token.signature != [] && clock < token.expiresAt
    && MergeGrants(p, token.constraints, q.reduced.value, MERGE_STAGES)
  }

  /**
   Passing evidence leaves the token as it is; degraded evidence reduces it when the reduced scope can be
   granted, and denies in every other case.
   */
  lemma OutcomeIff(p: Platform, cr: Crypto, issuer: Text, keyId: Text,
                   q: Requirement, es: seq<Evidence>, token: Capability, now: int, clock: int)
    requires Loaded(q)
    ensures var outcome := ApplyEqr(p, cr, issuer, keyId, q, es, token, now, clock);
            && (outcome == Unchanged <==> EvidencePasses(q, es, now))
            && (outcome.Reduced? <==> !EvidencePasses(q, es, now) && Reducible(p, q, token, clock))
            && (outcome == Denied <==> !EvidencePasses(q, es, now) && !Reducible(p, q, token, clock))
  {
    PassesIff(q, es, now);
    hide WorstVerdict, EvidencePasses, Loaded;
    if q.reduced.Some? {
      MergedIff(p, token.constraints, q.reduced.value);
      if Merge(p, token.constraints, q.reduced.value).Ok? {
        var extra := Merge(p, token.constraints, q.reduced.value).value;
        AssertNarrowingNeverFires(p, token.constraints, q.reduced.value);
        SecondMint(p, cr, issuer, keyId, q.reduced.value, extra, token, clock);
      }
    }
    hide Merge, MergeGrants, AssertNarrowing, Attenuate;
  }

  lemma SecondMint(p: Platform, cr: Crypto, issuer: Text, keyId: Text, reduced: Constraints, extra: Constraints,
                   token: Capability, clock: int)
    requires Merge(p, token.constraints, reduced) == Ok(extra)
    ensures Attenuate(p, cr, issuer, keyId, token, Request(extra, None, None, None, []), clock).Ok? <==>
            token.signature != [] && clock < token.expiresAt
  {
    var r := Request(extra, None, None, None, []);
    RecheckIff(p, token.constraints, reduced, extra);
    MergedIff(p, token.constraints, extra);
    MintedIff(p, cr, issuer, keyId, token, r, clock);
    hide Merge, MergeGrants, Attenuate, BlockEq;
    AllStages(p, cr, token, r, clock);
    hide GrantsBefore;
  }

  /** The reduced child keeps agent, tool, expiry, intent and pair of the token it cites. */
  lemma ReducedMembers(p: Platform, cr: Crypto, issuer: Text, keyId: Text,
                       q: Requirement, es: seq<Evidence>, token: Capability, now: int, clock: int)
    requires ApplyEqr(p, cr, issuer, keyId, q, es, token, now, clock).Reduced?
    ensures var child := ApplyEqr(p, cr, issuer, keyId, q, es, token, now, clock).child;
            && child.agentId == token.agentId && child.tool == token.tool && child.expiresAt == token.expiresAt
            && child.issuer == issuer && child.keyId == keyId && child.issuedAt == clock
            && child.intent == token.intent && child.actingFor == token.actingFor
            && child.parentId == Some(token.tokenId) && child.notBefore >= clock && child.notBefore >= token.notBefore
  {
    var extra := Merge(p, token.constraints, q.reduced.value).value;
    MintedMembers(p, cr, issuer, keyId, token, Request(extra, None, None, None, []), clock);
    hide Merge, Attenuate, WorstVerdict;
  }
}
