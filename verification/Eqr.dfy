/** Evidence quality as a gate input (`raucle/eqr.py`): degraded evidence narrows authority. */
module Eqr {
  import opened Basics
  import opened Canon
  import opened Values
  import opened Policy
  import opened Narrowing
  import opened Absorb
  import opened Repeats
  import opened Attenuation

  datatype Evidence = Evidence(kind: string, observedAt: int, sourceClass: string, confidence: int)

  /** A validated requirement; `reduced` is the compiled reduced scope when the mode is "reduce". */
  datatype Requirement = Requirement(
    kind: string, maxAge: int, minClass: string, floor: int, reduced: Option<Constraints>)

  datatype Verdict = Passing | Stale | BelowFloor | Unknown

  function Severity(v: Verdict): nat {
    match v
    case Passing => 0
    case Stale => 1
    case BelowFloor => 2
    case Unknown => 3
  }

  /** `source_rank`: position on the fixed ladder, -1 outside it. */
  function SourceRank(c: string): int {
    if c == "unverified" then 0
    else if c == "self-attested" then 1
    else if c == "third-party" then 2
    else if c == "certified" then 3
    else -1
  }

  /** `Evidence._evaluate`. */
  function Evaluate(e: Evidence, q: Requirement, now: int): Verdict {
    if e.kind == "" || e.observedAt < 0 then Unknown
    else if now - e.observedAt < 0 then Unknown
    else if now - e.observedAt > q.maxAge then Stale
    else if SourceRank(e.sourceClass) < SourceRank(q.minClass) then BelowFloor
    else if e.confidence < q.floor then BelowFloor
    else Passing
  }

  predicate OfKind(q: Requirement, es: seq<Evidence>) {
    exists e :: e in es && e.kind == q.kind
  }

  /** `evaluate_eqr`: the worst record of the kind, or UNKNOWN when there is none. */
  method EvaluateEqr(q: Requirement, es: seq<Evidence>, now: int) returns (worst: Verdict)
    ensures !OfKind(q, es) ==> worst == Unknown
    ensures OfKind(q, es) ==> exists e :: e in es && e.kind == q.kind && Evaluate(e, q, now) == worst
    ensures OfKind(q, es) ==>
              forall e :: e in es && e.kind == q.kind ==> Severity(Evaluate(e, q, now)) <= Severity(worst)
    ensures worst == WorstVerdict(q, es, now)
  {
    worst := Passing;
    var found := false;
    for i := 0 to |es|
      invariant found <==> OfKind(q, es[..i])
      invariant !found ==> worst == Passing
      invariant found ==> exists e :: e in es[..i] && e.kind == q.kind && Evaluate(e, q, now) == worst
      invariant forall e :: e in es[..i] && e.kind == q.kind ==> Severity(Evaluate(e, q, now)) <= Severity(worst)
    {
      assert es[..i + 1] == es[..i] + [es[i]];
      if es[i].kind == q.kind {
        var verdict := Evaluate(es[i], q, now);
        if Severity(verdict) > Severity(worst) {
          worst := verdict;
        }
        found := true;
      }
    }
    assert es[..|es|] == es;
    if !found {
      worst := Unknown;
    }
    WorstVerdictMax(q, es, now);
  }

  function Worse(a: Verdict, b: Verdict): Verdict {
    if Severity(b) > Severity(a) then b else a
  }

  /** The worst verdict over the records of the kind, by recursion over the history. */
  function WorstOfKind(q: Requirement, es: seq<Evidence>, now: int): Verdict {
    if es == [] then Passing
    else
      var rest := WorstOfKind(q, es[..|es| - 1], now);
      var last := es[|es| - 1];
      if last.kind == q.kind then Worse(rest, Evaluate(last, q, now)) else rest
  }

  function WorstVerdict(q: Requirement, es: seq<Evidence>, now: int): Verdict {
    if OfKind(q, es) then WorstOfKind(q, es, now) else Unknown
  }

  lemma {:induction false} WorstOfKindMax(q: Requirement, es: seq<Evidence>, now: int)
    ensures forall e :: e in es && e.kind == q.kind ==>
              Severity(Evaluate(e, q, now)) <= Severity(WorstOfKind(q, es, now))
    ensures WorstOfKind(q, es, now) == Passing ||
            exists e :: e in es && e.kind == q.kind && Evaluate(e, q, now) == WorstOfKind(q, es, now)
  {
    if es != [] {
      WorstOfKindMax(q, es[..|es| - 1], now);
      assert es == es[..|es| - 1] + [es[|es| - 1]];
    }
  }

  lemma WorstVerdictMax(q: Requirement, es: seq<Evidence>, now: int)
    ensures OfKind(q, es) ==>
              && (forall e :: e in es && e.kind == q.kind ==>
                    Severity(Evaluate(e, q, now)) <= Severity(WorstVerdict(q, es, now)))
              && exists e :: e in es && e.kind == q.kind && Evaluate(e, q, now) == WorstVerdict(q, es, now)
  {
    WorstOfKindMax(q, es, now);
  }

  /** PASSING exactly when evidence of the kind exists and every such record passes. */
  lemma PassingIff(q: Requirement, es: seq<Evidence>, now: int)
    ensures WorstVerdict(q, es, now) == Passing <==>
            OfKind(q, es) && forall e :: e in es && e.kind == q.kind ==> Evaluate(e, q, now) == Passing
  {
    WorstVerdictMax(q, es, now);
  }

  /** The bounds policy loading enforces on a requirement. */
  predicate Loaded(q: Requirement) {
    q.kind != "" && q.maxAge > 0 && 0 <= q.floor <= 100 && SourceRank(q.minClass) >= 0
  }

  /**
   Successor evidence never improves a verdict, if and only if evidence of the kind was
   already recorded: the first record can lift UNKNOWN to PASSING.
   */
  lemma SuccessorOnlyDegradesIff(q: Requirement, es: seq<Evidence>, now: int)
    requires Loaded(q) && now >= 0
    ensures (forall e :: Severity(WorstVerdict(q, es, now)) <= Severity(WorstVerdict(q, es + [e], now)))
            <==> OfKind(q, es)
  {
    if OfKind(q, es) {
      forall e
        ensures Severity(WorstVerdict(q, es, now)) <= Severity(WorstVerdict(q, es + [e], now))
      {
        assert (es + [e])[..|es|] == es;
        var k :| k in es && k.kind == q.kind;
        assert k in es + [e];
      }
    } else {
      var e := Evidence(q.kind, now, "certified", 100);
      assert e in es + [e];
      PassingIff(q, es + [e], now);
      assert WorstVerdict(q, es + [e], now) == Passing;
    }
  }

  // ---- Applying the verdict -----------------------------------------------

  datatype Outcome = Unchanged | Denied | Reduced(child: Capability)

  /** `apply_eqr_to_token`: merge once to test the scope, then attenuate by the merged block. */
  function ApplyEqr(p: Platform, cr: Crypto, issuer: Text, keyId: Text,
                    q: Requirement, es: seq<Evidence>, token: Capability, now: int, clock: int): Outcome
  {
    if WorstVerdict(q, es, now) == Passing then Unchanged
    else if q.reduced.None? then Denied
    else
      match Merge(p, token.constraints, q.reduced.value)
      case Err(_) => Denied
      case Ok(extra) =>
        if !AssertNarrowing(token.constraints, extra) then Denied
        else
          match Attenuate(p, cr, issuer, keyId, token, Request(extra, None, None, None, []), clock)
          case Err(_) => Denied
          case Ok(child) => Reduced(child)
  }

  /** A merge carries every list of the token, so merging again drops whatever the token repeats. */
  lemma SecondMergeReplaces(p: Platform, token: Constraints, reduced: Constraints)
    requires Merge(p, token, reduced).Ok?
    ensures RepeatsReplaced(token, Merge(p, token, reduced).value)
  {
    NormaliseParts(p, RawMerge(token, reduced));
  }

  /**
   The verifier accepts every reduced child, and merging to test the scope and again to mint
   is merging once if and only if the reduced scope names every list the token repeats.
   */
  lemma DoubleMergeIsSingleIff(p: Platform, cr: Crypto, issuer: Text, keyId: Text,
                               q: Requirement, es: seq<Evidence>, token: Capability, now: int, clock: int)
    requires ApplyEqr(p, cr, issuer, keyId, q, es, token, now, clock).Reduced?
    ensures var child := ApplyEqr(p, cr, issuer, keyId, q, es, token, now, clock).child;
            && AttenuationViolation(p, child, token) == None
            && (Merge(p, token.constraints, q.reduced.value) == Ok(child.constraints)
                <==> RepeatsReplaced(token.constraints, q.reduced.value))
  {
    var extra := Merge(p, token.constraints, q.reduced.value).value;
    var r := Request(extra, None, None, None, []);
    hide Merge, RepeatsReplaced, DupFree, AttenuationViolation, WorstVerdict;
    MergeDupFreeIff(p, token.constraints, q.reduced.value);
    MergeAbsorbsIff(p, token.constraints, q.reduced.value, extra);
    SecondMergeReplaces(p, token.constraints, q.reduced.value);
    MintedFields(p, cr, issuer, keyId, token, r, clock);
    MintedChildPassesIff(p, cr, issuer, keyId, token, r, clock);
  }

  /**
   Degraded evidence only narrows: the reduced child admits no call the reduced scope refuses,
   and none the token refuses when file prefixes narrow canonically.
   */
  lemma DegradedNarrows(p: Platform, cr: Crypto, issuer: Text, keyId: Text,
                        q: Requirement, es: seq<Evidence>, token: Capability, now: int, clock: int, args: Args)
    requires ApplyEqr(p, cr, issuer, keyId, q, es, token, now, clock).Reduced?
    requires Accepts(p, ApplyEqr(p, cr, issuer, keyId, q, es, token, now, clock).child.constraints, args)
    ensures Accepts(p, token.constraints, args) <==> PrefixesOk(p, Entries(token.constraints.startsWith), args)
    ensures PrefixesCanonical(p, token.constraints, q.reduced.value) ==> Accepts(p, token.constraints, args)
    ensures Accepts(p, q.reduced.value, args) <==> q.reduced.value.unknownKinds == {}
  {
    var extra := Merge(p, token.constraints, q.reduced.value).value;
    var r := Request(extra, None, None, None, []);
    MintedFields(p, cr, issuer, keyId, token, r, clock);
    NormaliseParts(p, RawMerge(token.constraints, q.reduced.value));
    hide Merge, Accepts, PrefixesOk, WorstVerdict;
    MergeNarrowsExtra(p, token.constraints, extra, args);
    MergeNarrowsParent(p, token.constraints, extra, args);
    MergeNarrowsParent(p, token.constraints, q.reduced.value, args);
    MergeNarrowsExtra(p, token.constraints, q.reduced.value, args);
  }
}
