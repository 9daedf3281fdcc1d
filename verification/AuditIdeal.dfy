/**
 The assumptions of `AuditSound` can be met: every run has a verifier that accepts exactly
 the signatures its writer made, and one run is carried through in full.
 */
module AuditIdeal {
  import opened Basics
  import opened Canon
  import opened Merkle
  import opened Audit
  import opened AuditRuns
  import opened AuditSound

  /** What the writer of a file signed, line by line. */
  function Emitted(lines: seq<Line>): seq<Message> {
    if lines == [] then []
    else
      var init, last := Emitted(lines[..|lines| - 1]), lines[|lines| - 1];
      if last.Header? && last.signed then init + [HeaderMsg(last.keyId, last.rest)]
      else if last.Checkpoint? && last.root.Some? then init + [CheckpointMsg(last.index, last.root.value, last.keyId)]
      else init
  }

  /** The line carries the message. */
  predicate Signs(l: Line, m: Message) {
    || (l.Header? && l.signed && m == HeaderMsg(l.keyId, l.rest))
    || (l.Checkpoint? && l.root.Some? && m == CheckpointMsg(l.index, l.root.value, l.keyId))
  }

  /** Ideal signatures: exactly those made by the signer, on messages of the file, verify. */
  function IdealSuite(s: Suite, written: seq<Line>): Suite {
    s.(verify := (m: Message, sig: Text) => m in Emitted(written) && sig == s.sign(m))
  }

  lemma {:induction false} EmittedIff(lines: seq<Line>, m: Message)
    ensures m in Emitted(lines) <==>
            exists l :: l in lines && Signs(l, m)
  {
    if lines != [] {
      var init, last := lines[..|lines| - 1], lines[|lines| - 1];
      EmittedIff(init, m);
      assert forall l :: l in lines <==> l in init || l == last;
      assert m in Emitted(lines) <==> m in Emitted(init) || Signs(last, m);
    }
  }

  /** A writer never looks at how signatures are verified. */
  lemma {:induction false} RunIgnoresVerify(s: Suite, t: Suite, signing: Signing, ops: seq<Op>)
    requires t == s.(verify := t.verify)
    ensures Run(t, signing, ops) == Run(s, signing, ops)
  {
    if ops != [] {
      RunIgnoresVerify(s, t, signing, ops[..|ops| - 1]);
    }
  }

  /** The signature on a line is the signer's own. */
  predicate OwnSignature(s: Suite, l: Line) {
    && (l.Header? && l.signed ==> l.signature == Some(s.sign(HeaderMsg(l.keyId, l.rest))))
    && (l.Checkpoint? && l.root.Some? ==> l.signature == Some(s.sign(CheckpointMsg(l.index, l.root.value, l.keyId))))
  }

  lemma {:induction false} RunSignsItsLines(s: Suite, signing: Signing, ops: seq<Op>)
    requires Run(s, signing, ops).Some?
    ensures forall l :: l in Run(s, signing, ops).value.lines ==> OwnSignature(s, l)
  {
    if ops != [] {
      RunSignsItsLines(s, signing, ops[..|ops| - 1]);
    }
  }

  /**
   Every signing run meets the assumptions of soundness under ideal signatures, with the same
   digests, encoding and key.
   */
  lemma IdealSuiteMeets(s: Suite, ops: seq<Op>)
    requires Is256Bit(s.h) && Run(s, true, ops).Some?
    ensures var written := Run(s, true, ops).value.lines;
            var t := IdealSuite(s, written);
            && Run(t, true, ops) == Run(s, true, ops)
            && SuiteOk(t, written) && Unforgeable(t, written)
  {
    var written := Run(s, true, ops).value.lines;
    var t := IdealSuite(s, written);
    RunIgnoresVerify(s, t, true, ops);
    RunSignsItsLines(s, true, ops);
    forall l | l in written
      ensures SignatureHolds(t, l)
    {
      assert OwnSignature(s, l);
      if l.Header? && l.signed {
        EmittedIff(written, HeaderMsg(l.keyId, l.rest));
        assert Signs(l, HeaderMsg(l.keyId, l.rest));
      } else if l.Checkpoint? && l.root.Some? {
        EmittedIff(written, CheckpointMsg(l.index, l.root.value, l.keyId));
        assert Signs(l, CheckpointMsg(l.index, l.root.value, l.keyId));
      }
    }
    forall m: Message, sig | m.CheckpointMsg? && t.verify(m, sig)
      ensures exists i :: 0 <= i < |written| && written[i].Checkpoint? && written[i].root.Some? &&
                m == CheckpointMsg(written[i].index, written[i].root.value, written[i].keyId)
    {
      EmittedIff(written, m);
      var l :| l in written && Signs(l, m);
      var i :| 0 <= i < |written| && written[i] == l;
    }
  }

  // ---- One run in full ----------------------------------------------------

  function Size(n: int): nat {
    if n < 0 then -n else n
  }

  function Sign(index: Option<int>): nat {
    if index.None? then 0 else if index.value < 0 then 1 else 2
  }

  function LinkKind(link: Option<HexText>): nat {
    if link.None? then 0 else if link.value.Hex? then 1 else 2
  }

  function LinkNumbers(link: Option<HexText>): seq<nat> {
    if link.None? then [] else if link.value.Hex? then link.value.bytes else link.value.text
  }

  /** A record body as plain numbers: sign and size of the index, kind and length of the link, then both texts. */
  function Numbers(b: Body): seq<nat> {
    [Sign(b.index), Size(b.index.GetOr(0)), LinkKind(b.prevHash), |LinkNumbers(b.prevHash)|]
    + LinkNumbers(b.prevHash) + b.rest
  }

  lemma NumbersInjective(a: Body, b: Body)
    requires Numbers(a) == Numbers(b)
    ensures a == b
  {
    var n, m := Numbers(a), Numbers(b);
    assert n[0] == m[0] && n[1] == m[1] && n[2] == m[2] && n[3] == m[3];
    var k := 4 + n[3];
    assert n[4..k] == LinkNumbers(a.prevHash) && m[4..k] == LinkNumbers(b.prevHash);
    assert n[k..] == a.rest && m[k..] == b.rest;
  }

  /** Every number as that many ones and a zero. */
  function Unary(numbers: seq<nat>): Bytes {
    if numbers == [] then []
    else Ones(numbers[0]) + [0] + Unary(numbers[1..])
  }

  function Ones(n: nat): (r: Bytes)
    ensures |r| == n && forall i :: 0 <= i < n ==> r[i] == 1
  {
    seq(n, i => 1)
  }

  lemma {:induction false} UnaryInjective(a: seq<nat>, b: seq<nat>)
    requires Unary(a) == Unary(b)
    ensures a == b
  {
    if a != [] && b != [] {
      var x, y := Unary(a), Unary(b);
      assert x[a[0]] == 0 && y[b[0]] == 0;
      assert a[0] == b[0];
      assert x[a[0] + 1..] == Unary(a[1..]) && y[b[0] + 1..] == Unary(b[1..]);
      UnaryInjective(a[1..], b[1..]);
      assert a == [a[0]] + a[1..] && b == [b[0]] + b[1..];
    }
  }

  /** A concrete suite: one constant digest, an injective encoding, and a fixed signature. */
  const SAMPLE := Suite(
    (x: Bytes) => Zeros(32), (b: Body) => Unary(Numbers(b)),
    (m: Message) => Ascii("sig"), (m: Message, sig: Text) => false, Ascii("key"))

  lemma SampleSuiteOk()
    ensures Is256Bit(SAMPLE.h) && EncodesInjectively(SAMPLE)
  {
    forall a, b | SAMPLE.encode(a) == SAMPLE.encode(b)
      ensures a == b
    {
      UnaryInjective(Numbers(a), Numbers(b));
      NumbersInjective(a, b);
    }
  }

  lemma RunStep(s: Suite, signing: Signing, ops: seq<Op>, op: Op)
    requires Run(s, signing, ops).Some?
    ensures Run(s, signing, ops + [op]) == Apply(s, signing, Run(s, signing, ops).value, op)
  {
  }

  const SAMPLE_RUN: seq<Op> := [Open([], 0)] + [Append([])] + [Close]

  lemma SampleFile()
    ensures var r := Run(SAMPLE, true, SAMPLE_RUN);
            && r.Some? && r.value.sink.None? && |r.value.lines| == 3
            && r.value.lines[0].Header? && r.value.lines[1].Event?
            && r.value.lines[2].Checkpoint? && r.value.lines[2].index == 1
  {
    hide MerkleText, BodyDigest;
    RunStep(SAMPLE, true, [], Open([], 0));
    assert [] + [Open([], 0)] == [Open([], 0)];
    RunStep(SAMPLE, true, [Open([], 0)], Append([]));
    RunStep(SAMPLE, true, [Open([], 0)] + [Append([])], Close);
    var record := EventLine(SAMPLE, EMPTY_TAIL, []);
    assert Appended(EMPTY_TAIL, record).leaves == [record.hash.value];
    MerkleTextDefined(SAMPLE, [record.body]);
    assert Digests(SAMPLE, [record.body]) == [record.hash.value];
  }

  lemma OneRecord(s: Suite, written: seq<Line>)
    requires |written| == 3 && written[0].Header? && written[1].Event?
    requires written[2].Checkpoint? && written[2].index == 1
    ensures Bodies(written) == [written[1].body] && HasCheckpoint(written, 1)
    ensures CollisionFree(s.h, Hashed(s, written))
  {
    assert written[..2][..1] == written[..1] && written[..1][..0] == [];
    assert Bodies(written[..1]) == [] && Bodies(written[..2]) == [written[1].body];
    forall x | x in Hashed(s, written)
      ensures x == s.encode(written[1].body)
    {
      assert !HasCheckpoint(written, 0);
      assert TreeInputs(s, written, 0) == {} == TreeInputs(s, written, 1);
    }
  }

  /**
   Soundness says something: open, append, close under ideal signatures meets every
   assumption, is accepted, holds a record and a checkpoint, and hashes no collision.
   */
  lemma SoundnessApplies() returns (s: Suite)
    ensures EncodesInjectively(s) && Run(s, true, SAMPLE_RUN).Some?
    ensures var written := Run(s, true, SAMPLE_RUN).value.lines;
            && SuiteOk(s, written) && Unforgeable(s, written)
            && Verified(s, true, written, None).valid
            && |Bodies(written)| == 1 && HasCheckpoint(written, 1)
            && CollisionFree(s.h, Hashed(s, written))
  {
    hide Run, SuiteOk, Unforgeable, Hashed, CollisionFree, Bodies, HasCheckpoint, VerifyLines;
    SampleSuiteOk();
    SampleFile();
    IdealSuiteMeets(SAMPLE, SAMPLE_RUN);
    var written := Run(SAMPLE, true, SAMPLE_RUN).value.lines;
    s := IdealSuite(SAMPLE, written);
    RunVerifies(s, true, SAMPLE_RUN);
    OneRecord(s, written);
  }
}
