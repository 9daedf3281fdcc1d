/**
 What the verifier's answer says about the file itself, key or no key: the hash chain from the
 genesis digest to the last record, and the checkpoints, header and anchors around it.
 */
module AuditChain {
  import opened Basics
  import opened Canon
  import opened Merkle
  import opened Audit
  import opened AuditRuns
  import opened AuditSound

  // ---- What one line must be after the lines before it --------------------

  /** The hash a record must link to: the last one stored before it, or the genesis digest. */
  ghost predicate IsTail(before: seq<Line>, t: HexText) {
    || (exists j ::
          && 0 <= j < |before| && Stores(before[j], t)
          && forall m, u :: j < m < |before| ==> !Stores(before[m], u))
    || (t == Hex(Zeros(32)) && forall m, u :: 0 <= m < |before| ==> !Stores(before[m], u))
  }

  /** The line is a record that stores this hash, which is not empty. */
  ghost predicate Stores(l: Line, t: HexText) {
    l.Event? && l.hash == Some(t) && t != Hex([])
  }

  ghost predicate IndexOk(before: seq<Line>, l: Line)
    requires l.Event?
  {
    l.body.index == Some(|Bodies(before)|)
  }

  ghost predicate LinkOk(before: seq<Line>, l: Line)
    requires l.Event?
  {
    exists t :: IsTail(before, t) && l.body.prevHash == Some(t)
  }

  ghost predicate HashOk(s: Suite, l: Line)
    requires l.Event?
  {
    l.hash == Some(Hex(s.h(s.encode(l.body))))
  }

  /** The only header; signed, it verifies. */
  ghost predicate HeaderOk(s: Suite, hasKey: bool, before: seq<Line>, l: Line)
    requires l.Header?
  {
    && (forall h :: h in before ==> !h.Header?)
    && (l.signed ==> hasKey && exists sig :: l.signature == Some(sig) && s.verify(HeaderMsg(l.keyId, l.rest), sig))
  }

  /** It states the count and root of the records before it, by the header's key, and verifies under a key. */
  ghost predicate CheckpointOk(s: Suite, hasKey: bool, before: seq<Line>, l: Line)
    requires l.Checkpoint?
  {
    && (forall h :: h in before && h.Header? ==> h.signed && (h.keyId == [] || l.keyId == h.keyId))
    && l.index == |Bodies(before)|
    && l.root.Some? && l.root == MerkleText(s, Digests(s, Bodies(before)))
    && (hasKey ==>
          exists sig :: l.signature == Some(sig) && s.verify(CheckpointMsg(l.index, l.root.value, l.keyId), sig))
  }

  ghost predicate LineOk(s: Suite, hasKey: bool, before: seq<Line>, l: Line) {
    match l
    case Blank => true
    case Garbage => false
    case Header(_, _, _, _) => HeaderOk(s, hasKey, before, l)
    case Checkpoint(_, _, _, _) => CheckpointOk(s, hasKey, before, l)
    case Event(_, _) => IndexOk(before, l) && LinkOk(before, l) && HashOk(s, l)
  }

  ghost predicate AllLinesOk(s: Suite, hasKey: bool, lines: seq<Line>) {
    forall i :: 0 <= i < |lines| ==> LineOk(s, hasKey, lines[..i], lines[i])
  }

  // ---- The verifier's state, read off the file ----------------------------

  lemma TailUnique(before: seq<Line>, t: HexText, u: HexText)
    requires IsTail(before, t) && IsTail(before, u)
    ensures t == u
  {
    hide Zeros;
    if j :| 0 <= j < |before| && Stores(before[j], t) && forall m, v :: j < m < |before| ==> !Stores(before[m], v) {
      if k :| 0 <= k < |before| && Stores(before[k], u) && forall m, v :: k < m < |before| ==> !Stores(before[m], v) {
        assert j == k;
      }
    }
  }

  lemma TailAdds(before: seq<Line>, l: Line, t: HexText)
    requires IsTail(before, t)
    ensures IsTail(before + [l], if l.Event? && !Falsy(l.hash) then l.hash.value else t)
  {
    hide Zeros;
    var more := before + [l];
    if l.Event? && !Falsy(l.hash) {
      assert Stores(more[|before|], l.hash.value);
    } else {
      assert forall u :: !Stores(l, u);
      if j :| 0 <= j < |before| && Stores(before[j], t) && forall m, v :: j < m < |before| ==> !Stores(before[m], v) {
        assert Stores(more[j], t);
        forall m, v | j < m < |more| ensures !Stores(more[m], v) {
          if m < |before| {
            assert !Stores(before[m], v);
          }
        }
      } else {
        forall m, v | 0 <= m < |more| ensures !Stores(more[m], v) {
          if m < |before| {
            assert !Stores(before[m], v);
          }
        }
      }
    }
  }

  lemma LinkIff(before: seq<Line>, l: Line, t: HexText)
    requires IsTail(before, t) && l.Event?
    ensures LinkOk(before, l) <==> l.body.prevHash == Some(t)
  {
    if u :| IsTail(before, u) && l.body.prevHash == Some(u) {
      TailUnique(before, t, u);
    }
  }

  ghost predicate FirstHeader(lines: seq<Line>, h: Line) {
    exists j :: 0 <= j < |lines| && lines[j] == h && h.Header? && forall m :: 0 <= m < j ==> !lines[m].Header?
  }

  /** The mode and the key the first header claims. */
  ghost predicate ModeClaimed(hasKey: bool, r: Report, lines: seq<Line>) {
    && ((forall h :: h in lines ==> !h.Header?) ==> r.mode == Unknown && r.chainKeyId == [])
    && forall h :: FirstHeader(lines, h) ==>
         && r.mode == (if !h.signed then UnsignedChain
                       else if h.signature.Some? && !hasKey then Unverifiable
                       else SignedChain)
         && r.chainKeyId == (if h.signed then h.keyId else [])
  }

  /** What the verifier keeps of any file: its records, the hash to link to, and the header's claim. */
  ghost predicate Keeps(hasKey: bool, p: Progress, lines: seq<Line>) {
    && p.expectedIndex == p.report.eventCount == |Bodies(lines)| && p.lastEvent == |Bodies(lines)| - 1
    && IsTail(lines, p.prevHash) && ModeClaimed(hasKey, p.report, lines)
  }

  lemma AddedLine(s: Suite, hasKey: bool, init: seq<Line>, l: Line)
    ensures VerifyLines(s, hasKey, init + [l]) == VerifyLine(s, hasKey, VerifyLines(s, hasKey, init), l)
    ensures Bodies(init + [l]) == if l.Event? then Bodies(init) + [l.body] else Bodies(init)
  {
    assert (init + [l])[..|init|] == init;
  }

  lemma HeaderAdds(lines: seq<Line>, l: Line)
    ensures (forall h :: h in lines ==> !h.Header?) ==>
              forall h :: FirstHeader(lines + [l], h) <==> h == l && l.Header?
    ensures (exists h :: h in lines && h.Header?) ==>
              forall h :: FirstHeader(lines + [l], h) <==> FirstHeader(lines, h)
    ensures forall h :: FirstHeader(lines, h) ==> h in lines && h.Header?
  {
    var more := lines + [l];
    assert more[|lines|] == l;
    if g :| g in lines && g.Header? {
      var k :| 0 <= k < |lines| && lines[k] == g;
      forall h | FirstHeader(more, h) ensures FirstHeader(lines, h) {
        var j :| 0 <= j < |more| && more[j] == h && h.Header? && forall m :: 0 <= m < j ==> !more[m].Header?;
        assert more[k] == g && j <= k;
        assert forall m :: 0 <= m < j ==> more[m] == lines[m];
      }
      forall h | FirstHeader(lines, h) ensures FirstHeader(more, h) {
        var j :| 0 <= j < |lines| && lines[j] == h && h.Header? && forall m :: 0 <= m < j ==> !lines[m].Header?;
        assert more[j] == h && forall m :: 0 <= m < j ==> more[m] == lines[m];
      }
    }
  }

  lemma ModeAdds(s: Suite, hasKey: bool, p: Progress, lines: seq<Line>, l: Line)
    requires ModeClaimed(hasKey, p.report, lines)
    ensures ModeClaimed(hasKey, VerifyLine(s, hasKey, p, l).report, lines + [l])
  {
    HeaderAdds(lines, l);
    var q := VerifyLine(s, hasKey, p, l).report;
    hide FirstHeader;
    assert l in lines + [l];
    if h :| h in lines && h.Header? {
      var g := TheFirstHeader(lines);
      assert p.report.mode != Unknown && q.mode == p.report.mode && q.chainKeyId == p.report.chainKeyId;
      assert h in lines + [l];
    } else if !l.Header? {
      assert q.mode == Unknown && q.chainKeyId == [];
    }
  }

  lemma {:induction false} TheFirstHeader(lines: seq<Line>) returns (h: Line)
    requires exists g :: g in lines && g.Header?
    ensures FirstHeader(lines, h)
  {
    if lines[0].Header? {
      h := lines[0];
    } else {
      var rest := lines[1..];
      assert lines == [lines[0]] + rest;
      h := TheFirstHeader(rest);
      var j :| 0 <= j < |rest| && rest[j] == h && h.Header? && forall m :: 0 <= m < j ==> !rest[m].Header?;
      assert lines[j + 1] == h;
      forall m | 0 <= m < j + 1 ensures !lines[m].Header? {
        if m > 0 {
          assert lines[m] == rest[m - 1];
        }
      }
    }
  }

  lemma KeepsAdds(s: Suite, hasKey: bool, p: Progress, init: seq<Line>, l: Line)
    requires Keeps(hasKey, p, init)
    requires Bodies(init + [l]) == if l.Event? then Bodies(init) + [l.body] else Bodies(init)
    ensures Keeps(hasKey, VerifyLine(s, hasKey, p, l), init + [l])
  {
    TailAdds(init, l, p.prevHash);
    ModeAdds(s, hasKey, p, init, l);
    hide IsTail, ModeClaimed, Bodies, HeaderStep, CheckpointStep;
    StepKeepsCount(s, hasKey, p, l);
  }

  lemma StepKeepsCount(s: Suite, hasKey: bool, p: Progress, l: Line)
    ensures VerifyLine(s, hasKey, p, l).report.eventCount == p.report.eventCount + if l.Event? then 1 else 0
  {
    hide MerkleText;
  }

  lemma {:induction false} FileKept(s: Suite, hasKey: bool, lines: seq<Line>)
    ensures Keeps(hasKey, VerifyLines(s, hasKey, lines), lines)
  {
    if lines != [] {
      var init, l := lines[..|lines| - 1], lines[|lines| - 1];
      assert lines == init + [l];
      hide *;
      FileKept(s, hasKey, init);
      AddedLine(s, hasKey, init, l);
      KeepsAdds(s, hasKey, VerifyLines(s, hasKey, init), init, l);
    }
  }

  // ---- Valid means every line is as it must be ----------------------------

  /** Of a file that is still valid: the leaves, and the last checkpoint a key confirmed. */
  ghost predicate ValidKeeps(s: Suite, hasKey: bool, p: Progress, lines: seq<Line>) {
    && p.leaves == Digests(s, Bodies(lines))
    && p.lastHash == (if Bodies(lines) == [] then None
                      else Some(Hex(BodyDigest(s, Bodies(lines)[|Bodies(lines)| - 1]))))
    && p.lastSigned <= |Bodies(lines)|
    && (forall l :: l in lines && l.Checkpoint? ==> l.index <= |Bodies(lines)|)
    && (hasKey && Bodies(lines) != [] ==> (p.lastSigned == |Bodies(lines)| <==> Sealed(lines)))
  }

  /** Some checkpoint counts all records of the file. */
  ghost predicate Sealed(lines: seq<Line>) {
    exists l :: l in lines && l.Checkpoint? && l.index == |Bodies(lines)|
  }

  lemma HeaderLineIff(s: Suite, hasKey: bool, p: Progress, lines: seq<Line>, l: Line)
    requires ModeClaimed(hasKey, p.report, lines) && l.Header?
    ensures VerifyLine(s, hasKey, p, l).report.valid <==> p.report.valid && LineOk(s, hasKey, lines, l)
  {
    if h :| h in lines && h.Header? {
      var g := TheFirstHeader(lines);
      assert p.report.mode != Unknown;
    }
  }

  lemma CheckpointLineIff(s: Suite, hasKey: bool, p: Progress, lines: seq<Line>, l: Line)
    requires Keeps(hasKey, p, lines) && AllLinesOk(s, hasKey, lines) && p.leaves == Digests(s, Bodies(lines))
    requires l.Checkpoint?
    ensures VerifyLine(s, hasKey, p, l).report.valid <==> p.report.valid && LineOk(s, hasKey, lines, l)
  {
    hide IsTail, MerkleText;
    MerkleTextDefined(s, Bodies(lines));
    if h :| h in lines && h.Header? {
      OnlyHeader(s, hasKey, lines);
      var g := TheFirstHeader(lines);
      HeaderAdds(lines, l);
    }
  }

  /** A file of good lines has at most one header. */
  lemma OnlyHeader(s: Suite, hasKey: bool, lines: seq<Line>)
    requires AllLinesOk(s, hasKey, lines)
    ensures forall g, h :: FirstHeader(lines, g) && h in lines && h.Header? ==> h == g
  {
    forall g, h | FirstHeader(lines, g) && h in lines && h.Header?
      ensures h == g
    {
      var j :| 0 <= j < |lines| && lines[j] == g && g.Header? && forall m :: 0 <= m < j ==> !lines[m].Header?;
      var k :| 0 <= k < |lines| && lines[k] == h;
      if j < k {
        assert LineOk(s, hasKey, lines[..k], lines[k]);
        assert lines[..k][j] == g;
      }
    }
  }

  lemma EventLineIff(s: Suite, hasKey: bool, p: Progress, lines: seq<Line>, l: Line)
    requires Keeps(hasKey, p, lines) && l.Event?
    ensures VerifyLine(s, hasKey, p, l).report.valid <==> p.report.valid && LineOk(s, hasKey, lines, l)
  {
    LinkIff(lines, l, p.prevHash);
    hide IsTail, ModeClaimed, LinkOk;
  }

  lemma ValidKeepsAdds(s: Suite, hasKey: bool, p: Progress, lines: seq<Line>, l: Line)
    requires Keeps(hasKey, p, lines) && ValidKeeps(s, hasKey, p, lines) && LineOk(s, hasKey, lines, l)
    requires VerifyLine(s, hasKey, p, l).report.valid
    requires Bodies(lines + [l]) == if l.Event? then Bodies(lines) + [l.body] else Bodies(lines)
    ensures ValidKeeps(s, hasKey, VerifyLine(s, hasKey, p, l), lines + [l])
  {
    hide IsTail, ModeClaimed, Bodies, MerkleText;
    var more := lines + [l];
    assert l in more && forall x :: x in lines ==> x in more;
    assert forall x :: x in more ==> x in lines || x == l;
    if l.Event? {
      var q := VerifyLine(s, hasKey, p, l);
      assert Digests(s, Bodies(lines) + [l.body]) == Digests(s, Bodies(lines)) + [l.hash.value];
      assert !Sealed(more);
      assert q.lastHash == Some(Hex(BodyDigest(s, l.body)));
    }
  }

  /** The file is valid so far if and only if every line is as it must be after the lines before it. */
  lemma {:induction false} ValidIff(s: Suite, hasKey: bool, lines: seq<Line>)
    ensures var p := VerifyLines(s, hasKey, lines);
            && (p.report.valid <==> AllLinesOk(s, hasKey, lines))
            && (p.report.valid ==> ValidKeeps(s, hasKey, p, lines))
  {
    if lines != [] {
      var init, l := lines[..|lines| - 1], lines[|lines| - 1];
      assert lines == init + [l];
      ValidIff(s, hasKey, init);
      FileKept(s, hasKey, init);
      AddedLine(s, hasKey, init, l);
      var p := VerifyLines(s, hasKey, init);
      LastLine(s, hasKey, init, l);
      hide VerifyLines, Keeps, ValidKeeps, LineOk, AllLinesOk, Bodies;
      if p.report.valid {
        OneLine(s, hasKey, p, init, l);
        if VerifyLine(s, hasKey, p, l).report.valid {
          ValidKeepsAdds(s, hasKey, p, init, l);
        }
      } else {
        InvalidStays(s, hasKey, p, l);
      }
    }
  }

  lemma LastLine(s: Suite, hasKey: bool, init: seq<Line>, l: Line)
    ensures AllLinesOk(s, hasKey, init + [l]) <==> AllLinesOk(s, hasKey, init) && LineOk(s, hasKey, init, l)
  {
    var lines := init + [l];
    hide LineOk;
    assert lines[..|init|] == init && lines[|init|] == l;
    assert forall i :: 0 <= i < |init| ==> lines[..i] == init[..i] && lines[i] == init[i];
    if AllLinesOk(s, hasKey, lines) {
      forall i | 0 <= i < |init| ensures LineOk(s, hasKey, init[..i], init[i]) {
        assert LineOk(s, hasKey, lines[..i], lines[i]);
      }
    }
  }

  lemma InvalidStays(s: Suite, hasKey: bool, p: Progress, l: Line)
    requires !p.report.valid
    ensures !VerifyLine(s, hasKey, p, l).report.valid
  {
  }

  lemma OneLine(s: Suite, hasKey: bool, p: Progress, lines: seq<Line>, l: Line)
    requires Keeps(hasKey, p, lines) && ValidKeeps(s, hasKey, p, lines) && AllLinesOk(s, hasKey, lines)
    ensures VerifyLine(s, hasKey, p, l).report.valid <==> p.report.valid && LineOk(s, hasKey, lines, l)
  {
    hide IsTail, ModeClaimed, AllLinesOk, HeaderOk, CheckpointOk, LinkOk, IndexOk, HashOk;
    match l
    case Blank =>
    case Garbage =>
    case Header(_, _, _, _) => HeaderLineIff(s, hasKey, p, lines, l);
    case Checkpoint(_, _, _, _) => CheckpointLineIff(s, hasKey, p, lines, l);
    case Event(_, _) => EventLineIff(s, hasKey, p, lines, l);
  }

  /** The head that was anchored elsewhere is the head of these records. */
  ghost predicate HeadOk(s: Suite, head: Head, bodies: seq<Body>) {
    && (forall n :: head.index == Some(n) ==> n == |bodies| - 1)
    && (forall t :: head.hash == Some(t) ==> bodies != [] && t == Hex(s.h(s.encode(bodies[|bodies| - 1]))))
    && (head.root.Some? ==> head.root == MerkleText(s, Digests(s, bodies)))
  }

  lemma HeadIff(s: Suite, hasKey: bool, p: Progress, lines: seq<Line>, head: Head)
    requires Keeps(hasKey, p, lines) && ValidKeeps(s, hasKey, p, lines)
    ensures HeadMatches(s, head, p) <==> HeadOk(s, head, Bodies(lines))
  {
    hide Bodies, ModeClaimed, IsTail, MerkleText, Digests, Sealed;
  }

  /** Under a key the file is signed, and a checkpoint counts all its records. */
  ghost predicate SignedAndSealed(lines: seq<Line>) {
    (exists h :: h in lines && h.Header? && h.signed) && (Bodies(lines) != [] ==> Sealed(lines))
  }

  lemma CoveredIff(s: Suite, hasKey: bool, lines: seq<Line>)
    requires AllLinesOk(s, hasKey, lines)
    ensures Covered(hasKey, VerifyLines(s, hasKey, lines)).valid <==> (hasKey ==> SignedAndSealed(lines))
  {
    ValidIff(s, hasKey, lines);
    FileKept(s, hasKey, lines);
    SignedIff(s, hasKey, lines);
    hide VerifyLines, AllLinesOk, ModeClaimed, IsTail, MerkleText, Digests, Sealed, Bodies;
  }

  /**
   `verify_chain` calls a file valid if and only if every line is as it must be; under a key the
   file is signed and a checkpoint covers all its records; and it meets the anchored head.
   */
  lemma VerifiedIff(s: Suite, hasKey: bool, lines: seq<Line>, head: Option<Head>)
    ensures Verified(s, hasKey, lines, head).valid <==>
            && AllLinesOk(s, hasKey, lines) && (hasKey ==> SignedAndSealed(lines))
            && (head.Some? ==> HeadOk(s, head.value, Bodies(lines)))
  {
    ValidIff(s, hasKey, lines);
    FileKept(s, hasKey, lines);
    var p := VerifyLines(s, hasKey, lines);
    if p.report.valid {
      CoveredIff(s, hasKey, lines);
      if head.Some? {
        HeadIff(s, hasKey, p, lines, head.value);
      }
    }
    hide VerifyLines, AllLinesOk, SignedAndSealed, HeadOk, HeadMatches, ValidKeeps, Keeps, Bodies;
  }

  lemma SignedIff(s: Suite, hasKey: bool, lines: seq<Line>)
    requires AllLinesOk(s, hasKey, lines)
    ensures hasKey ==> (VerifyLines(s, hasKey, lines).report.mode == SignedChain <==>
                        exists h :: h in lines && h.Header? && h.signed)
  {
    FileKept(s, hasKey, lines);
    hide VerifyLines, IsTail, Bodies;
    OnlyHeader(s, hasKey, lines);
    if h :| h in lines && h.Header? {
      var g := TheFirstHeader(lines);
      HeaderAdds(lines, g);
    }
  }

  // ---- The hash chain -----------------------------------------------------

  /** The hash a record after these must link to. */
  ghost function LinkAfter(s: Suite, bodies: seq<Body>): HexText {
    Hex(if bodies == [] then Zeros(32) else s.h(s.encode(bodies[|bodies| - 1])))
  }

  /** Every record carries its position and the digest of the record before it, back to the genesis digest. */
  ghost predicate Chained(s: Suite, bodies: seq<Body>) {
    forall k :: 0 <= k < |bodies| ==>
      bodies[k].index == Some(k) && bodies[k].prevHash == Some(LinkAfter(s, bodies[..k]))
  }

  lemma ChainAdds(s: Suite, bodies: seq<Body>, body: Body)
    requires Chained(s, bodies)
    requires body.index == Some(|bodies|) && body.prevHash == Some(LinkAfter(s, bodies))
    ensures Chained(s, bodies + [body])
  {
    hide LinkAfter;
    var more := bodies + [body];
    assert forall k :: 0 <= k < |bodies| ==> more[k] == bodies[k] && more[..k] == bodies[..k];
    assert more[..|bodies|] == bodies;
  }

  lemma RecordLinks(s: Suite, init: seq<Line>, l: Line)
    requires Is256Bit(s.h) && IsTail(init, LinkAfter(s, Bodies(init))) && l.Event?
    requires LinkOk(init, l) && HashOk(s, l)
    ensures l.body.prevHash == Some(LinkAfter(s, Bodies(init)))
    ensures IsTail(init + [l], LinkAfter(s, Bodies(init) + [l.body]))
  {
    TailAdds(init, l, LinkAfter(s, Bodies(init)));
    LinkIff(init, l, LinkAfter(s, Bodies(init)));
    assert |s.h(s.encode(l.body))| == 32;
    hide IsTail, LinkOk, Bodies, Zeros;
  }

  lemma {:induction false} LinesChained(s: Suite, hasKey: bool, lines: seq<Line>)
    requires Is256Bit(s.h) && AllLinesOk(s, hasKey, lines)
    ensures Chained(s, Bodies(lines)) && IsTail(lines, LinkAfter(s, Bodies(lines)))
  {
    if lines != [] {
      var init, l := lines[..|lines| - 1], lines[|lines| - 1];
      assert lines == init + [l];
      LastLine(s, hasKey, init, l);
      LinesChained(s, hasKey, init);
      AddedLine(s, hasKey, init, l);
      hide AllLinesOk, IsTail, LinkOk, Bodies, Zeros, Chained, LinkAfter, Is256Bit;
      if l.Event? {
        RecordLinks(s, init, l);
        ChainAdds(s, Bodies(init), l.body);
      } else {
        TailAdds(init, l, LinkAfter(s, Bodies(init)));
      }
    }
  }

  /** A file the verifier calls valid, with or without a key, is one unbroken chain. */
  lemma AcceptedIsChained(s: Suite, hasKey: bool, lines: seq<Line>, head: Option<Head>)
    requires Is256Bit(s.h) && Verified(s, hasKey, lines, head).valid
    ensures Chained(s, Bodies(lines))
  {
    VerifiedIff(s, hasKey, lines, head);
    LinesChained(s, hasKey, lines);
  }

  ghost function Encodings(s: Suite, bodies: seq<Body>): set<Bytes> {
    set i | 0 <= i < |bodies| :: s.encode(bodies[i])
  }

  lemma LastRecords(s: Suite, a: seq<Body>, b: seq<Body>)
    requires EncodesInjectively(s) && Chained(s, a) && Chained(s, b) && a != [] && b != []
    requires CollisionFree(s.h, Encodings(s, a) + Encodings(s, b))
    requires LinkAfter(s, a) == LinkAfter(s, b)
    ensures a[|a| - 1] == b[|b| - 1] && |a| == |b|
    ensures LinkAfter(s, a[..|a| - 1]) == LinkAfter(s, b[..|b| - 1])
  {
    var x, y := a[|a| - 1], b[|b| - 1];
    assert s.h(s.encode(x)) == s.h(s.encode(y));
    hide LinkAfter;
    assert s.encode(x) in Encodings(s, a) && s.encode(y) in Encodings(s, b);
  }

  lemma FewerEncodings(s: Suite, bodies: seq<Body>)
    requires bodies != []
    ensures Encodings(s, bodies[..|bodies| - 1]) <= Encodings(s, bodies)
  {
  }

  lemma LastJoined(bodies: seq<Body>)
    requires bodies != []
    ensures bodies == bodies[..|bodies| - 1] + [bodies[|bodies| - 1]]
  {
  }

  /** The last digest of a chain fixes the whole chain, its length included, or two encodings collide. */
  lemma {:induction false} LastDigestBinds(s: Suite, a: seq<Body>, b: seq<Body>)
    requires EncodesInjectively(s) && Chained(s, a) && Chained(s, b) && a != [] && b != []
    requires LinkAfter(s, a) == LinkAfter(s, b)
    ensures a == b || !CollisionFree(s.h, Encodings(s, a) + Encodings(s, b))
  {
    hide *;
    var inputs := Encodings(s, a) + Encodings(s, b);
    if CollisionFree(s.h, inputs) {
      LastRecords(s, a, b);
      var c, d := a[..|a| - 1], b[..|b| - 1];
      if |a| > 1 {
        ChainShortens(s, a);
        ChainShortens(s, b);
        LastDigestBinds(s, c, d);
        FewerEncodings(s, a);
        FewerEncodings(s, b);
        CollisionFreeSubset(s.h, Encodings(s, c) + Encodings(s, d), inputs);
      }
      LastJoined(a);
      LastJoined(b);
    }
  }

  lemma ChainShortens(s: Suite, bodies: seq<Body>)
    requires Chained(s, bodies) && bodies != []
    ensures Chained(s, bodies[..|bodies| - 1])
  {
    hide LinkAfter;
    var init := bodies[..|bodies| - 1];
    assert forall k :: 0 <= k < |init| ==> init[k] == bodies[k] && init[..k] == bodies[..k];
  }

  /** Two accepted files whose last records have one digest hold the same records, or two encodings collide. */
  lemma SameTailSameRecords(s: Suite, keyA: bool, keyB: bool, a: seq<Line>, b: seq<Line>, headA: Option<Head>,
                            headB: Option<Head>)
    requires Is256Bit(s.h) && EncodesInjectively(s)
    requires Verified(s, keyA, a, headA).valid && Verified(s, keyB, b, headB).valid
    requires Bodies(a) != [] && Bodies(b) != []
    requires s.h(s.encode(Bodies(a)[|Bodies(a)| - 1])) == s.h(s.encode(Bodies(b)[|Bodies(b)| - 1]))
    ensures Bodies(a) == Bodies(b) || !CollisionFree(s.h, Encodings(s, Bodies(a)) + Encodings(s, Bodies(b)))
  {
    AcceptedIsChained(s, keyA, a, headA);
    AcceptedIsChained(s, keyB, b, headB);
    LastDigestBinds(s, Bodies(a), Bodies(b));
  }

  /** An anchored last hash alone therefore pins every record of the file it was taken from. */
  lemma HashAnchorBinds(s: Suite, hasKey: bool, written: seq<Line>, lines: seq<Line>, head: Head)
    requires Is256Bit(s.h) && EncodesInjectively(s)
    requires Verified(s, false, written, None).valid && Bodies(written) != []
    requires head.hash == Some(Hex(s.h(s.encode(Bodies(written)[|Bodies(written)| - 1]))))
    requires Verified(s, hasKey, lines, Some(head)).valid
    ensures || Bodies(lines) == Bodies(written)
            || !CollisionFree(s.h, Encodings(s, Bodies(lines)) + Encodings(s, Bodies(written)))
  {
    VerifiedIff(s, hasKey, lines, Some(head));
    SameTailSameRecords(s, hasKey, false, lines, written, Some(head), None);
  }

  /** The head a writer would publish after a run names the count, the last digest and the root of its records. */
  lemma AnchorIsHead(s: Suite, signing: Signing, ops: seq<Op>)
    requires ops != [] && Run(s, signing, ops).Some? && SuiteOk(s, Run(s, signing, ops).value.lines)
    ensures var lines := Run(s, signing, ops).value.lines;
            var b := Bodies(lines);
            AnchorOf(s, Resumed(lines)) ==
            Head(Some(|b| - 1), if b == [] then None else Some(LinkAfter(s, b)), MerkleText(s, Digests(s, b)))
  {
    var lines := Run(s, signing, ops).value.lines;
    RunKeepsInvariant(s, signing, ops);
    ValidIff(s, signing, lines);
    FileKept(s, signing, lines);
    LinesChained(s, signing, lines);
    var p := VerifyLines(s, signing, lines);
    TailUnique(lines, p.prevHash, LinkAfter(s, Bodies(lines)));
    hide VerifyLines, Run, AllLinesOk, ModeClaimed, IsTail, MerkleText, SuiteOk;
  }

  // ---- What the report says -----------------------------------------------

  /** The record breaks the chain after the lines before it. */
  ghost predicate Breaks(s: Suite, before: seq<Line>, l: Line) {
    l.Event? && !(IndexOk(before, l) && LinkOk(before, l) && HashOk(s, l))
  }

  /** The number a breaking record is reported under: the index it claims if that is wrong, else its position. */
  ghost function ReportedAs(before: seq<Line>, l: Line): int
    requires l.Event?
  {
    if IndexOk(before, l) || l.body.index.None? then |Bodies(before)| else l.body.index.value
  }

  ghost predicate FirstBreak(s: Suite, lines: seq<Line>, i: nat) {
    && i < |lines| && Breaks(s, lines[..i], lines[i])
    && forall k :: 0 <= k < i ==> !Breaks(s, lines[..k], lines[k])
  }

  /** `first` is the number of the first record that breaks the chain, if any does. */
  ghost predicate NamesFirstBreak(s: Suite, lines: seq<Line>, first: Option<int>) {
    && (first == None <==> forall i :: 0 <= i < |lines| ==> !Breaks(s, lines[..i], lines[i]))
    && forall i: nat :: FirstBreak(s, lines, i) ==> first == Some(ReportedAs(lines[..i], lines[i]))
  }

  lemma OneMoreBreak(s: Suite, hasKey: bool, p: Progress, before: seq<Line>, l: Line)
    requires Keeps(hasKey, p, before)
    ensures VerifyLine(s, hasKey, p, l).report.firstInvalid ==
            if p.report.firstInvalid.Some? || !Breaks(s, before, l) then p.report.firstInvalid
            else Some(ReportedAs(before, l))
  {
    if l.Event? {
      LinkIff(before, l, p.prevHash);
    }
    hide IsTail, ModeClaimed, LinkOk;
  }

  lemma BreakAdds(s: Suite, init: seq<Line>, l: Line, first: Option<int>)
    requires NamesFirstBreak(s, init, first)
    ensures NamesFirstBreak(s, init + [l],
                            if first.Some? || !Breaks(s, init, l) then first else Some(ReportedAs(init, l)))
  {
    hide Breaks, ReportedAs;
    var lines := init + [l];
    assert lines[..|init|] == init && lines[|init|] == l;
    assert forall i :: 0 <= i < |init| ==> lines[..i] == init[..i] && lines[i] == init[i];
    if first.Some? {
      var k :| 0 <= k < |init| && Breaks(s, init[..k], init[k]);
      assert Breaks(s, lines[..k], lines[k]);
      forall i: nat | FirstBreak(s, lines, i) ensures FirstBreak(s, init, i) {
        assert i <= k;
      }
    } else {
      assert forall i: nat :: FirstBreak(s, lines, i) ==> i == |init|;
    }
  }

  /** The first invalid index is that of the first record that breaks the chain, in any file. */
  lemma {:induction false} FirstInvalidIff(s: Suite, hasKey: bool, lines: seq<Line>)
    ensures NamesFirstBreak(s, lines, VerifyLines(s, hasKey, lines).report.firstInvalid)
  {
    if lines != [] {
      var init, l := lines[..|lines| - 1], lines[|lines| - 1];
      assert lines == init + [l];
      hide *;
      FirstInvalidIff(s, hasKey, init);
      FileKept(s, hasKey, init);
      AddedLine(s, hasKey, init, l);
      var p := VerifyLines(s, hasKey, init);
      OneMoreBreak(s, hasKey, p, init, l);
      BreakAdds(s, init, l, p.report.firstInvalid);
    }
  }

  /** The hash each record stores, empty when it stores none. */
  ghost function StoredHashes(lines: seq<Line>): seq<HexText> {
    if lines == [] then []
    else
      var l := lines[|lines| - 1];
      StoredHashes(lines[..|lines| - 1]) + if l.Event? then [l.hash.GetOr(Hex([]))] else []
  }

  lemma {:induction false} LeavesAreStored(s: Suite, hasKey: bool, lines: seq<Line>)
    ensures VerifyLines(s, hasKey, lines).leaves == StoredHashes(lines)
  {
    if lines != [] {
      LeavesAreStored(s, hasKey, lines[..|lines| - 1]);
    }
  }

  /** A checkpoint that is otherwise as it must be, in any file: its signature is looked at when there is a key. */
  ghost predicate Signable(s: Suite, before: seq<Line>, l: Line) {
    && l.Checkpoint? && l.index == |Bodies(before)|
    && (forall h :: FirstHeader(before, h) ==> h.signed && (h.keyId == [] || l.keyId == h.keyId))
    && l.root.Some? && l.root == MerkleText(s, StoredHashes(before))
  }

  ghost predicate SignatureVerifies(s: Suite, l: Line)
    requires l.Checkpoint? && l.root.Some?
  {
    exists sig :: l.signature == Some(sig) && s.verify(CheckpointMsg(l.index, l.root.value, l.keyId), sig)
  }

  ghost predicate GoodSignature(s: Suite, hasKey: bool, before: seq<Line>, l: Line) {
    hasKey && Signable(s, before, l) && SignatureVerifies(s, l)
  }

  /** A signature that was looked at and does not verify: the first header's, or a checkpoint's. */
  ghost predicate BadSignature(s: Suite, hasKey: bool, before: seq<Line>, l: Line) {
    hasKey &&
    if l.Header? then
      && (forall h :: h in before ==> !h.Header?)
      && l.signed && exists sig :: l.signature == Some(sig) && !s.verify(HeaderMsg(l.keyId, l.rest), sig)
    else Signable(s, before, l) && !SignatureVerifies(s, l)
  }

  ghost function Checkpoints(lines: seq<Line>): set<int> {
    set i | 0 <= i < |lines| && lines[i].Checkpoint?
  }

  ghost function GoodSignatures(s: Suite, hasKey: bool, lines: seq<Line>): set<int> {
    set i | 0 <= i < |lines| && GoodSignature(s, hasKey, lines[..i], lines[i])
  }

  ghost function BadSignatures(s: Suite, hasKey: bool, lines: seq<Line>): set<int> {
    set i | 0 <= i < |lines| && BadSignature(s, hasKey, lines[..i], lines[i])
  }

  lemma SignableIff(s: Suite, hasKey: bool, p: Progress, lines: seq<Line>, l: Line)
    requires ModeClaimed(hasKey, p.report, lines) && l.Checkpoint?
    requires p.leaves == StoredHashes(lines) && p.expectedIndex == |Bodies(lines)|
    ensures var r := CheckpointStep(s, hasKey, l, p.leaves, p.expectedIndex, p.report);
            && r.checkpointCount == p.report.checkpointCount + 1
            && r.validSignatures ==
               p.report.validSignatures + (if GoodSignature(s, hasKey, lines, l) then 1 else 0)
            && r.invalidSignatures ==
               p.report.invalidSignatures + (if BadSignature(s, hasKey, lines, l) then 1 else 0)
  {
    hide MerkleText, StoredHashes, Bodies, FirstHeader;
    if h :| h in lines && h.Header? {
      var g := TheFirstHeader(lines);
      OneFirstHeader(lines);
    } else {
      NoFirstHeader(lines);
    }
  }

  lemma OneFirstHeader(lines: seq<Line>)
    ensures forall g, h :: FirstHeader(lines, g) && FirstHeader(lines, h) ==> g == h
  {
  }

  lemma NoFirstHeader(lines: seq<Line>)
    requires forall h :: h in lines ==> !h.Header?
    ensures forall h :: !FirstHeader(lines, h)
  {
  }

  lemma HeaderSignature(s: Suite, hasKey: bool, p: Progress, lines: seq<Line>, l: Line)
    requires ModeClaimed(hasKey, p.report, lines) && l.Header?
    ensures var r := HeaderStep(s, hasKey, l, p.report);
            && r.checkpointCount == p.report.checkpointCount && r.validSignatures == p.report.validSignatures
            && r.invalidSignatures ==
               p.report.invalidSignatures + (if BadSignature(s, hasKey, lines, l) then 1 else 0)
  {
    if h :| h in lines && h.Header? {
      var g := TheFirstHeader(lines);
      assert p.report.mode != Unknown;
    }
  }

  ghost predicate Counted(r: Report, checkpoints: nat, good: nat, bad: nat) {
    r.checkpointCount == checkpoints && r.validSignatures == good && r.invalidSignatures == bad
  }

  lemma LineCounted(s: Suite, hasKey: bool, p: Progress, lines: seq<Line>, l: Line, n: nat, good: nat, bad: nat)
    requires Keeps(hasKey, p, lines) && p.leaves == StoredHashes(lines) && Counted(p.report, n, good, bad)
    ensures Counted(VerifyLine(s, hasKey, p, l).report,
                    n + (if l.Checkpoint? then 1 else 0),
                    good + (if GoodSignature(s, hasKey, lines, l) then 1 else 0),
                    bad + (if BadSignature(s, hasKey, lines, l) then 1 else 0))
  {
    hide ModeClaimed, IsTail, StoredHashes, Bodies, HeaderStep, CheckpointStep, MerkleText;
    match l
    case Header(_, _, _, _) =>
      HeaderSignature(s, hasKey, p, lines, l);
    case Checkpoint(_, _, _, _) =>
      SignableIff(s, hasKey, p, lines, l);
    case _ =>
  }

  lemma CheckpointsAdd(init: seq<Line>, l: Line)
    ensures |Checkpoints(init + [l])| == |Checkpoints(init)| + if l.Checkpoint? then 1 else 0
  {
    var lines := init + [l];
    assert Checkpoints(lines) == Checkpoints(init) + if l.Checkpoint? then {|init|} else {};
  }

  lemma GoodAdd(s: Suite, hasKey: bool, init: seq<Line>, l: Line)
    ensures |GoodSignatures(s, hasKey, init + [l])| ==
            |GoodSignatures(s, hasKey, init)| + if GoodSignature(s, hasKey, init, l) then 1 else 0
  {
    hide GoodSignature;
    var lines := init + [l];
    assert lines[..|init|] == init && forall i :: 0 <= i < |init| ==> lines[..i] == init[..i] && lines[i] == init[i];
    assert GoodSignatures(s, hasKey, lines) ==
           GoodSignatures(s, hasKey, init) + if GoodSignature(s, hasKey, init, l) then {|init|} else {};
  }

  lemma BadAdd(s: Suite, hasKey: bool, init: seq<Line>, l: Line)
    ensures |BadSignatures(s, hasKey, init + [l])| ==
            |BadSignatures(s, hasKey, init)| + if BadSignature(s, hasKey, init, l) then 1 else 0
  {
    hide BadSignature;
    var lines := init + [l];
    assert lines[..|init|] == init && forall i :: 0 <= i < |init| ==> lines[..i] == init[..i] && lines[i] == init[i];
    assert BadSignatures(s, hasKey, lines) ==
           BadSignatures(s, hasKey, init) + if BadSignature(s, hasKey, init, l) then {|init|} else {};
  }

  lemma {:induction false} PositionsCounted(s: Suite, hasKey: bool, lines: seq<Line>)
    ensures Counted(VerifyLines(s, hasKey, lines).report, |Checkpoints(lines)|, |GoodSignatures(s, hasKey, lines)|,
                    |BadSignatures(s, hasKey, lines)|)
  {
    if lines != [] {
      var init, l := lines[..|lines| - 1], lines[|lines| - 1];
      assert lines == init + [l];
      PositionsCounted(s, hasKey, init);
      FileKept(s, hasKey, init);
      LeavesAreStored(s, hasKey, init);
      AddedLine(s, hasKey, init, l);
      CheckpointsAdd(init, l);
      GoodAdd(s, hasKey, init, l);
      BadAdd(s, hasKey, init, l);
      var p := VerifyLines(s, hasKey, init);
      hide *;
      LineCounted(s, hasKey, p, init, l, |Checkpoints(init)|, |GoodSignatures(s, hasKey, init)|,
                  |BadSignatures(s, hasKey, init)|);
    }
  }

  /** Every count of the report, and the mode and key it claims, are those of the file, valid or not. */
  lemma ReportCounts(s: Suite, hasKey: bool, lines: seq<Line>, head: Option<Head>)
    ensures var r := Verified(s, hasKey, lines, head);
            && r.eventCount == |Bodies(lines)| && r.checkpointCount == |Checkpoints(lines)|
            && r.validSignatures == |GoodSignatures(s, hasKey, lines)|
            && r.invalidSignatures == |BadSignatures(s, hasKey, lines)|
            && ModeClaimed(hasKey, r, lines)
            && r.firstInvalid == VerifyLines(s, hasKey, lines).report.firstInvalid
  {
    FileKept(s, hasKey, lines);
    PositionsCounted(s, hasKey, lines);
    hide VerifyLines, Bodies, IsTail, Checkpoints, GoodSignatures, BadSignatures, MerkleText, FirstHeader;
  }
}
