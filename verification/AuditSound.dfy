/**
 What an accepted audit file proves. Signatures are ideal: the only checkpoints that
 verify are those the writer emitted. Hash collisions are named, never assumed away.
 */
module AuditSound {
  import opened Basics
  import opened Merkle
  import opened Audit
  import opened AuditRuns

  /** The event records of a file, in order. */
  function Bodies(lines: seq<Line>): (r: seq<Body>)
    ensures |r| <= |lines|
  {
    if lines == [] then []
    else Bodies(lines[..|lines| - 1]) + if lines[|lines| - 1].Event? then [lines[|lines| - 1].body] else []
  }

  function Digests(s: Suite, bodies: seq<Body>): (r: seq<HexText>)
    ensures |r| == |bodies|
    ensures forall i :: 0 <= i < |r| ==> r[i] == Hex(BodyDigest(s, bodies[i]))
  {
    seq(|bodies|, i requires 0 <= i < |bodies| => Hex(BodyDigest(s, bodies[i])))
  }

  lemma {:induction false} BodiesPrefix(lines: seq<Line>, i: nat)
    requires i <= |lines|
    ensures Bodies(lines[..i]) <= Bodies(lines)
  {
    if i < |lines| {
      var init := lines[..|lines| - 1];
      assert init[..i] == lines[..i];
      BodiesPrefix(init, i);
    } else {
      assert lines[..i] == lines;
    }
  }

  /** The verifier saw a valid signature on the count and root of the first `n` records. */
  ghost predicate SignedAt(s: Suite, bodies: seq<Body>) {
    exists kid, sig :: MerkleText(s, Digests(s, bodies)).Some? &&
      s.verify(CheckpointMsg(|bodies|, MerkleText(s, Digests(s, bodies)).value, kid), sig)
  }

  /** On a file still counted valid, the verifier's state is a function of the records alone. */
  ghost predicate ReflectsBodies(s: Suite, p: Progress, bodies: seq<Body>) {
    && p.leaves == Digests(s, bodies)
    && p.expectedIndex == |bodies| && p.lastEvent == |bodies| - 1
    && -1 <= p.lastSigned <= |bodies|
    && (p.lastSigned >= 0 ==> SignedAt(s, bodies[..p.lastSigned]))
  }

  lemma {:induction false} ValidReflectsBodies(s: Suite, hasKey: bool, lines: seq<Line>)
    requires Is256Bit(s.h)
    ensures var p := VerifyLines(s, hasKey, lines);
            p.report.valid ==> ReflectsBodies(s, p, Bodies(lines))
  {
    if lines != [] {
      var init, l := lines[..|lines| - 1], lines[|lines| - 1];
      ValidReflectsBodies(s, hasKey, init);
      hide ReflectsBodies;
      var p := VerifyLines(s, hasKey, init);
      if VerifyLine(s, hasKey, p, l).report.valid {
        LineReflects(s, hasKey, p, Bodies(init), l);
        assert Bodies(lines) == if l.Event? then Bodies(init) + [l.body] else Bodies(init);
      }
    } else {
      assert Digests(s, []) == [];
    }
  }

  lemma LineReflects(s: Suite, hasKey: bool, p: Progress, bodies: seq<Body>, l: Line)
    requires Is256Bit(s.h) && VerifyLine(s, hasKey, p, l).report.valid
    requires p.report.valid ==> ReflectsBodies(s, p, bodies)
    ensures p.report.valid
    ensures ReflectsBodies(s, VerifyLine(s, hasKey, p, l), if l.Event? then bodies + [l.body] else bodies)
  {
    var q := VerifyLine(s, hasKey, p, l);
    match l
    case Event(body, hash) =>
      assert !Falsy(hash);
      var more := bodies + [body];
      assert Digests(s, more) == Digests(s, bodies) + [hash.value];
      if p.lastSigned >= 0 {
        assert more[..p.lastSigned] == bodies[..p.lastSigned];
      }
    case Checkpoint(index, root, keyId, signature) =>
      assert bodies[..|bodies|] == bodies;
      if q.report.validSignatures > p.report.validSignatures {
        assert s.verify(CheckpointMsg(|bodies|, MerkleText(s, Digests(s, bodies)).value, keyId), signature.value);
      }
    case _ =>
  }

  /** Once a file is invalid it stays invalid. */
  lemma {:induction false} ValidPrefix(s: Suite, hasKey: bool, lines: seq<Line>, i: nat)
    requires i <= |lines| && VerifyLines(s, hasKey, lines).report.valid
    ensures VerifyLines(s, hasKey, lines[..i]).report.valid
  {
    if i < |lines| {
      var init := lines[..|lines| - 1];
      assert init[..i] == lines[..i];
      ValidPrefix(s, hasKey, init, i);
    } else {
      assert lines[..i] == lines;
    }
  }

  /** In a valid file every checkpoint states the count and root of the records before it. */
  lemma CheckpointsAreTrue(s: Suite, hasKey: bool, lines: seq<Line>, i: nat)
    requires Is256Bit(s.h) && VerifyLines(s, hasKey, lines).report.valid
    requires i < |lines| && lines[i].Checkpoint?
    ensures var before := Bodies(lines[..i]);
            lines[i].index == |before| && lines[i].root == MerkleText(s, Digests(s, before))
  {
    ValidPrefix(s, hasKey, lines, i + 1);
    ValidPrefix(s, hasKey, lines, i);
    ValidReflectsBodies(s, hasKey, lines[..i]);
    assert lines[..i + 1][..i] == lines[..i];
  }

  // ---- What was hashed ----------------------------------------------------

  function DigestBytes(s: Suite, bodies: seq<Body>): (r: seq<Bytes>)
    ensures |r| == |bodies| && forall i :: 0 <= i < |r| ==> r[i] == BodyDigest(s, bodies[i])
  {
    seq(|bodies|, i requires 0 <= i < |bodies| => BodyDigest(s, bodies[i]))
  }

  ghost predicate HasCheckpoint(lines: seq<Line>, n: int) {
    exists i :: 0 <= i < |lines| && lines[i].Checkpoint? && lines[i].index == n
  }

  /** Record encodings, and the tree inputs of every checkpoint or of the head. */
  ghost function Hashed(s: Suite, lines: seq<Line>): set<Bytes> {
    var b := Bodies(lines);
    (set i | 0 <= i < |b| :: s.encode(b[i]))
    + (set n, x | 0 <= n <= |b| && x in TreeInputs(s, lines, n) :: x)
  }

  ghost function TreeInputs(s: Suite, lines: seq<Line>, n: nat): set<Bytes> {
    var b := Bodies(lines);
    if n <= |b| && (HasCheckpoint(lines, n) || n == |b|)
    then NodeInputs(s.h, PairLayout, DigestBytes(s, b[..n])) else {}
  }

  lemma PairLayoutParses()
    ensures Parses(PairLayout)
  {
    forall a, b, c, d | |a| == |b| == |c| == |d| == 32 && PairLayout(a, b) == PairLayout(c, d)
      ensures a == c && b == d
    {
      assert (a + b)[..32] == a && (a + b)[32..] == b;
      assert (c + d)[..32] == c && (c + d)[32..] == d;
    }
  }

  /** Canonical JSON distinguishes record bodies. */
  ghost predicate EncodesInjectively(s: Suite) {
    forall a, b :: s.encode(a) == s.encode(b) ==> a == b
  }

  lemma SameDigestsSameBodies(s: Suite, a: seq<Body>, b: seq<Body>, inputs: set<Bytes>)
    requires EncodesInjectively(s) && CollisionFree(s.h, inputs)
    requires forall i :: 0 <= i < |a| ==> s.encode(a[i]) in inputs
    requires forall i :: 0 <= i < |b| ==> s.encode(b[i]) in inputs
    requires DigestBytes(s, a) == DigestBytes(s, b)
    ensures a == b
  {
    assert |a| == |DigestBytes(s, a)| == |b|;
    forall i | 0 <= i < |a|
      ensures a[i] == b[i]
    {
      assert DigestBytes(s, a)[i] == DigestBytes(s, b)[i];
    }
  }

  lemma SameRootSameBodies(s: Suite, a: seq<Body>, b: seq<Body>, inputs: set<Bytes>)
    requires Is256Bit(s.h) && EncodesInjectively(s) && CollisionFree(s.h, inputs)
    requires |a| == |b| && MerkleText(s, Digests(s, a)) == MerkleText(s, Digests(s, b))
    requires forall i :: 0 <= i < |a| ==> s.encode(a[i]) in inputs
    requires forall i :: 0 <= i < |b| ==> s.encode(b[i]) in inputs
    requires NodeInputs(s.h, PairLayout, DigestBytes(s, a)) <= inputs
    requires NodeInputs(s.h, PairLayout, DigestBytes(s, b)) <= inputs
    ensures a == b
  {
    if a != [] {
      var da, db := DigestBytes(s, a), DigestBytes(s, b);
      assert Decoded(Digests(s, a)) == da && Decoded(Digests(s, b)) == db;
      PairLayoutParses();
      RootBinds(s.h, PairLayout, da, db);
      CollisionFreeSubset(s.h, NodeInputs(s.h, PairLayout, da) + NodeInputs(s.h, PairLayout, db), inputs);
      SameDigestsSameBodies(s, a, b, inputs);
    }
  }

  lemma PrefixHashed(s: Suite, lines: seq<Line>, n: nat)
    requires n <= |Bodies(lines)| && (HasCheckpoint(lines, n) || n == |Bodies(lines)|)
    ensures forall i :: 0 <= i < n ==> s.encode(Bodies(lines)[..n][i]) in Hashed(s, lines)
    ensures NodeInputs(s.h, PairLayout, DigestBytes(s, Bodies(lines)[..n])) <= Hashed(s, lines)
  {
    forall x | x in NodeInputs(s.h, PairLayout, DigestBytes(s, Bodies(lines)[..n]))
      ensures x in Hashed(s, lines)
    {
      assert x in TreeInputs(s, lines, n);
    }
  }

  lemma BindPrefix(s: Suite, lines: seq<Line>, written: seq<Line>, n: nat)
    requires Is256Bit(s.h) && EncodesInjectively(s)
    requires |Bodies(lines)| == n <= |Bodies(written)|
    requires HasCheckpoint(written, n) || n == |Bodies(written)|
    requires MerkleText(s, Digests(s, Bodies(lines))) == MerkleText(s, Digests(s, Bodies(written)[..n]))
    ensures Bodies(lines) == Bodies(written)[..n] || !CollisionFree(s.h, Hashed(s, lines) + Hashed(s, written))
  {
    var inputs := Hashed(s, lines) + Hashed(s, written);
    if CollisionFree(s.h, inputs) {
      hide Hashed, MerkleText, CollisionFree, NodeInputs;
      PrefixHashed(s, lines, n);
      PrefixHashed(s, written, n);
      assert Bodies(lines)[..n] == Bodies(lines);
      SameRootSameBodies(s, Bodies(lines), Bodies(written)[..n], inputs);
    }
  }

  // ---- Main results -------------------------------------------------------

  /** Only checkpoints the writer put in its own file verify. */
  ghost predicate Unforgeable(s: Suite, written: seq<Line>) {
    forall m: Message, sig :: m.CheckpointMsg? && s.verify(m, sig) ==>
      exists i :: 0 <= i < |written| && written[i].Checkpoint? && written[i].root.Some? &&
        m == CheckpointMsg(written[i].index, written[i].root.value, written[i].keyId)
  }

  /** A file accepted under the key ends in a verified checkpoint over all its records. */
  lemma AcceptedIsSigned(s: Suite, lines: seq<Line>)
    requires Is256Bit(s.h) && Verified(s, true, lines, None).valid && Bodies(lines) != []
    ensures SignedAt(s, Bodies(lines))
  {
    ValidReflectsBodies(s, true, lines);
    var p := VerifyLines(s, true, lines);
    assert p.lastSigned == |Bodies(lines)|;
    assert Bodies(lines)[..p.lastSigned] == Bodies(lines);
  }

  /**
   Soundness: whatever file the verifier accepts under the writer's key holds exactly
   the writer's first `n` records, where `n` is 0 or a count the writer checkpointed,
   or a collision among the inputs hashed for the two files is exhibited.
   */
  lemma AcceptedIsCheckpointedPrefix(s: Suite, ops: seq<Op>, lines: seq<Line>)
    requires EncodesInjectively(s) && ops != [] && Run(s, true, ops).Some?
    requires SuiteOk(s, Run(s, true, ops).value.lines) && Unforgeable(s, Run(s, true, ops).value.lines)
    requires Verified(s, true, lines, None).valid
    ensures var written := Run(s, true, ops).value.lines;
            var n := |Bodies(lines)|;
            || (&& n <= |Bodies(written)| && Bodies(lines) == Bodies(written)[..n]
                && (n == 0 || HasCheckpoint(written, n)))
            || !CollisionFree(s.h, Hashed(s, lines) + Hashed(s, written))
  {
    var written := Run(s, true, ops).value.lines;
    var b := Bodies(lines);
    if b != [] {
      AcceptedIsSigned(s, lines);
      RunKeepsInvariant(s, true, ops);
      assert VerifyLines(s, true, written).report.valid;
      var i := EmittedCheckpoint(s, written, b);
      BodiesPrefix(written, i);
      assert Bodies(written[..i]) == Bodies(written)[..|b|];
      BindPrefix(s, lines, written, |b|);
    }
  }

  lemma EmittedCheckpoint(s: Suite, written: seq<Line>, b: seq<Body>) returns (i: nat)
    requires Is256Bit(s.h) && Unforgeable(s, written) && SignedAt(s, b)
    requires VerifyLines(s, true, written).report.valid
    ensures i < |written| && |Bodies(written[..i])| == |b| && HasCheckpoint(written, |b|)
    ensures MerkleText(s, Digests(s, Bodies(written[..i]))) == MerkleText(s, Digests(s, b))
  {
    var kid, sig :| MerkleText(s, Digests(s, b)).Some? &&
      s.verify(CheckpointMsg(|b|, MerkleText(s, Digests(s, b)).value, kid), sig);
    var m := CheckpointMsg(|b|, MerkleText(s, Digests(s, b)).value, kid);
    i :| 0 <= i < |written| && written[i].Checkpoint? && written[i].root.Some? &&
      m == CheckpointMsg(written[i].index, written[i].root.value, written[i].keyId);
    CheckpointsAreTrue(s, true, written, i);
  }

  /**
   An externally anchored count and root pin the whole log, key or no key: a file
   accepted against the writer's anchor holds exactly the writer's records.
   */
  lemma AnchorBindsWholeLog(s: Suite, signing: Signing, hasKey: bool, ops: seq<Op>, lines: seq<Line>)
    requires EncodesInjectively(s) && ops != [] && Run(s, signing, ops).Some?
    requires SuiteOk(s, Run(s, signing, ops).value.lines)
    requires Verified(s, hasKey, lines, Some(AnchorOf(s, Resumed(Run(s, signing, ops).value.lines)))).valid
    ensures var written := Run(s, signing, ops).value.lines;
            || Bodies(lines) == Bodies(written)
            || !CollisionFree(s.h, Hashed(s, lines) + Hashed(s, written))
  {
    var written := Run(s, signing, ops).value.lines;
    RunKeepsInvariant(s, signing, ops);
    ValidReflectsBodies(s, signing, written);
    ValidReflectsBodies(s, hasKey, lines);
    var n := |Bodies(written)|;
    assert Bodies(written)[..n] == Bodies(written);
    MerkleTextDefined(s, Bodies(written));
    assert |Bodies(lines)| == n;
    BindPrefix(s, lines, written, n);
  }

  lemma MerkleTextDefined(s: Suite, bodies: seq<Body>)
    ensures MerkleText(s, Digests(s, bodies)).Some?
  {
  }

  lemma {:induction false} SignedFromHeader(s: Suite, lines: seq<Line>, i: nat)
    requires 1 <= i <= |lines| && VerifyLines(s, true, lines).report.valid
    requires lines[0].Header? && lines[0].signed
    ensures VerifyLines(s, true, lines[..i]).report.mode == SignedChain
  {
    ValidPrefix(s, true, lines, i);
    if i > 1 {
      SignedFromHeader(s, lines, i - 1);
      assert lines[..i][..i - 1] == lines[..i - 1];
    } else {
      assert lines[..1][..0] == [];
    }
  }

  /**
   The prefixes named by soundness are all attainable: cutting the writer's file right
   after any of its checkpoints gives a file the key alone accepts. Only an anchor detects it.
   */
  lemma TruncationAtCheckpointAccepted(s: Suite, ops: seq<Op>, i: nat)
    requires Run(s, true, ops).Some? && SuiteOk(s, Run(s, true, ops).value.lines)
    requires i < |Run(s, true, ops).value.lines| && Run(s, true, ops).value.lines[i].Checkpoint?
    ensures Verified(s, true, Run(s, true, ops).value.lines[..i + 1], None).valid
  {
    var written := Run(s, true, ops).value.lines;
    RunKeepsInvariant(s, true, ops);
    RunStartsWithHeader(s, ops);
    ValidPrefix(s, true, written, i + 1);
    SignedFromHeader(s, written, i + 1);
    ValidPrefix(s, true, written, i);
    ValidReflectsBodies(s, true, written[..i]);
    assert written[..i + 1][..i] == written[..i];
  }

  /** So the prefixes soundness names are exactly those some accepted file holds. */
  lemma CheckpointedPrefixAccepted(s: Suite, ops: seq<Op>, n: nat) returns (lines: seq<Line>)
    requires ops != [] && Run(s, true, ops).Some? && SuiteOk(s, Run(s, true, ops).value.lines)
    requires n == 0 || HasCheckpoint(Run(s, true, ops).value.lines, n)
    ensures Verified(s, true, lines, None).valid
    ensures n <= |Bodies(Run(s, true, ops).value.lines)| && Bodies(lines) == Bodies(Run(s, true, ops).value.lines)[..n]
  {
    var written := Run(s, true, ops).value.lines;
    RunKeepsInvariant(s, true, ops);
    if n == 0 {
      RunStartsWithHeader(s, ops);
      lines := written[..1];
      ValidPrefix(s, true, written, 1);
      SignedFromHeader(s, written, 1);
      assert lines[..0] == [];
      ValidReflectsBodies(s, true, lines);
    } else {
      var i :| 0 <= i < |written| && written[i].Checkpoint? && written[i].index == n;
      lines := written[..i + 1];
      TruncationAtCheckpointAccepted(s, ops, i);
      CheckpointsAreTrue(s, true, written, i);
      BodiesPrefix(written, i);
      assert lines[..i] == written[..i];
    }
  }

  lemma {:induction false} RunStartsWithHeader(s: Suite, ops: seq<Op>)
    requires Run(s, true, ops).Some?
    ensures Run(s, true, ops).value.onDisk ==>
              var lines := Run(s, true, ops).value.lines;
              lines != [] && lines[0].Header? && lines[0].signed
    ensures !Run(s, true, ops).value.onDisk ==>
              Run(s, true, ops).value.lines == [] && Run(s, true, ops).value.sink.None?
  {
    if ops != [] {
      RunStartsWithHeader(s, ops[..|ops| - 1]);
    }
  }
}
