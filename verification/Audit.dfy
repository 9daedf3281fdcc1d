/** The hash-chained audit log (`raucle/audit.py`): record formats, the verifier and the sink. */
module Audit {
  import opened Basics
  import opened Canon
  import opened Merkle

  /** A `hash`-like member: the lower-case hex of some bytes, or text that is not hex. */
  datatype HexText = Hex(bytes: Bytes) | NotHex(text: Text)

  /** An event record without its `hash` member; `rest` is every other member. */
  datatype Body = Body(index: Option<int>, prevHash: Option<HexText>, rest: Text)

  /** What a signer signs: a header body or a checkpoint body. */
  datatype Message =
    | HeaderMsg(keyId: Text, rest: Text)
    | CheckpointMsg(index: int, root: HexText, keyId: Text)

  /** One line of a log file. A missing `key_id` reads as the empty text. */
  datatype Line =
    | Blank
    | Garbage
    | Header(signed: bool, keyId: Text, rest: Text, signature: Option<Text>)
    | Checkpoint(index: int, root: Option<HexText>, keyId: Text, signature: Option<Text>)
    | Event(body: Body, hash: Option<HexText>)

  /** SHA-256, canonical JSON of a record body, and the signature scheme with its key id. */
  datatype Suite = Suite(
    h: Hash, encode: Body -> Bytes, sign: Message -> Text, verify: (Message, Text) -> bool, keyId: Text)

  function Zeros(n: nat): (r: Bytes)
    ensures |r| == n
  {
    seq(n, i => 0)
  }

  const GENESIS: Bytes := Zeros(32)

  function BodyDigest(s: Suite, b: Body): Bytes {
    s.h(s.encode(b))
  }

  /** `_merkle_root` hashes two digests side by side. */
  function PairLayout(left: Bytes, right: Bytes): Bytes {
    left + right
  }

  /** The text is empty or missing: falsy in Python. */
  predicate Falsy(hash: Option<HexText>) {
    hash == None || hash == Some(Hex([]))
  }

  function Decoded(leaves: seq<HexText>): (r: seq<Bytes>)
    requires forall x :: x in leaves ==> x.Hex?
    ensures |r| == |leaves| && forall i :: 0 <= i < |r| ==> r[i] == leaves[i].bytes
  {
    seq(|leaves|, i requires 0 <= i < |leaves| => leaves[i].bytes)
  }

  /** `_merkle_root`; `None` when some leaf is not hex. */
  function MerkleText(s: Suite, leaves: seq<HexText>): Option<HexText> {
    if leaves == [] then Some(Hex(s.h([])))
    else if exists x :: x in leaves && x.NotHex? then None
    else Some(Hex(Root(s.h, PairLayout, Decoded(leaves))))
  }

  /** `_merkle_root` as it runs: decode every leaf, then fold level by level. */
  method MerkleRoot(s: Suite, leaves: seq<HexText>) returns (root: Option<HexText>)
    ensures root == MerkleText(s, leaves)
  {
    if leaves == [] {
      return Some(Hex(s.h([])));
    }
    for i := 0 to |leaves|
      invariant forall k :: 0 <= k < i ==> leaves[k].Hex?
    {
      if leaves[i].NotHex? {
        assert leaves[i] in leaves;
        return None;
      }
    }
    var digest := RootLoop(s.h, PairLayout, Decoded(leaves));
    return Some(Hex(digest));
  }

  // ---- The verifier -------------------------------------------------------

  datatype Mode = Unknown | SignedChain | UnsignedChain | Unverifiable

  datatype Report = Report(
    valid: bool, eventCount: nat, checkpointCount: nat, validSignatures: nat, invalidSignatures: nat,
    firstInvalid: Option<int>, mode: Mode, chainKeyId: Text)

  /** The verifier's locals: what it expects next and what it has covered. */
  datatype Progress = Progress(
    report: Report, prevHash: HexText, expectedIndex: nat, leaves: seq<HexText>,
    lastSigned: int, lastEvent: int, lastHash: Option<HexText>)

  const START := Progress(Report(true, 0, 0, 0, 0, None, Unknown, []), Hex(GENESIS), 0, [], -1, -1, None)

  /** `_verify_chain_header`. */
  function HeaderStep(s: Suite, hasKey: bool, l: Line, r: Report): Report
    requires l.Header?
  {
    if r.mode != Unknown then r.(valid := false)
    else if !l.signed then r.(mode := UnsignedChain)
    else
      var signed := r.(mode := SignedChain, chainKeyId := l.keyId);
      if l.signature.None? then signed.(valid := false)
      else if !hasKey then signed.(mode := Unverifiable, valid := false)
      else if !s.verify(HeaderMsg(l.keyId, l.rest), l.signature.value)
      then signed.(valid := false, invalidSignatures := r.invalidSignatures + 1)
      else signed
  }

  /** `_verify_checkpoint`. */
  function CheckpointStep(s: Suite, hasKey: bool, l: Line, leaves: seq<HexText>, expected: nat, r: Report): Report
    requires l.Checkpoint?
  {
    var counted := r.(checkpointCount := r.checkpointCount + 1);
    if r.mode == UnsignedChain || l.index != expected then counted.(valid := false)
    else if MerkleText(s, leaves).None? || l.root != MerkleText(s, leaves) then counted.(valid := false)
    else if r.chainKeyId != [] && l.keyId != r.chainKeyId then counted.(valid := false)
    else if !hasKey then counted
    else if l.signature.None? || !s.verify(CheckpointMsg(l.index, l.root.value, l.keyId), l.signature.value)
    then counted.(valid := false, invalidSignatures := r.invalidSignatures + 1)
    else counted.(validSignatures := r.validSignatures + 1)
  }

  /** `_verify_event_record`: index, link and digest, noting the first failure. */
  function EventReport(s: Suite, l: Line, p: Progress): Report
    requires l.Event?
  {
    var r := p.report;
    var indexBad := l.body.index != Some(p.expectedIndex);
    var linkBad := l.body.prevHash != Some(p.prevHash);
    var hashBad := l.hash != Some(Hex(BodyDigest(s, l.body)));
    r.(valid := r.valid && !indexBad && !linkBad && !hashBad,
       firstInvalid := if r.firstInvalid.Some? then r.firstInvalid
                       else if indexBad then Some(l.body.index.GetOr(p.expectedIndex))
                       else if linkBad || hashBad then Some(p.expectedIndex)
                       else None)
  }

  /** One line of `verify_chain`'s loop. */
  function VerifyLine(s: Suite, hasKey: bool, p: Progress, l: Line): Progress {
    match l
    case Blank => p
    case Garbage => p.(report := p.report.(valid := false))
    case Header(_, _, _, _) => p.(report := HeaderStep(s, hasKey, l, p.report))
    case Checkpoint(index, _, _, _) =>
      var r := CheckpointStep(s, hasKey, l, p.leaves, p.expectedIndex, p.report);
      p.(report := r, lastSigned := if r.validSignatures > p.report.validSignatures then index else p.lastSigned)
    case Event(_, hash) =>
      var r := EventReport(s, l, p);
      Progress(r.(eventCount := r.eventCount + 1),
               if Falsy(hash) then p.prevHash else hash.value,
               p.expectedIndex + 1,
               p.leaves + [if Falsy(hash) then Hex([]) else hash.value],
               p.lastSigned, p.expectedIndex, if Falsy(hash) then Some(Hex([])) else hash)
  }

  function VerifyLines(s: Suite, hasKey: bool, lines: seq<Line>): Progress {
    if lines == [] then START
    else VerifyLine(s, hasKey, VerifyLines(s, hasKey, lines[..|lines| - 1]), lines[|lines| - 1])
  }

  /** `_verify_downgrade_and_truncation`. */
  function Covered(hasKey: bool, p: Progress): Report {
    var signedOk := !hasKey || p.report.mode == SignedChain;
    var tailOk := !(hasKey && p.report.mode == SignedChain && p.lastEvent >= 0 && p.lastSigned < p.lastEvent + 1);
    p.report.(valid := p.report.valid && signedOk && tailOk)
  }

  /** An externally anchored head; each part is optional. */
  datatype Head = Head(index: Option<int>, hash: Option<HexText>, root: Option<HexText>)

  /** `_verify_expected_head`. */
  predicate HeadMatches(s: Suite, head: Head, p: Progress) {
    && (head.index.Some? ==> head.index.value == p.lastEvent)
    && (head.hash.Some? ==> head.hash == p.lastHash)
    && (head.root.Some? ==> head.root == MerkleText(s, p.leaves))
  }

  function Verified(s: Suite, hasKey: bool, lines: seq<Line>, head: Option<Head>): Report {
    var p := VerifyLines(s, hasKey, lines);
    var r := Covered(hasKey, p);
    if head.Some? && !HeadMatches(s, head.value, p) then r.(valid := false) else r
  }

  /** `verify_chain`: one pass over the file, then the coverage and head checks. */
  method VerifyChain(s: Suite, hasKey: bool, lines: seq<Line>, head: Option<Head>) returns (report: Report)
    ensures report == Verified(s, hasKey, lines, head)
  {
    report := Report(true, 0, 0, 0, 0, None, Unknown, []);
    var prevHash := Hex(GENESIS);
    var expectedIndex := 0;
    var leaves: seq<HexText> := [];
    var lastSigned, lastEvent := -1, -1;
    var lastHash: Option<HexText> := None;
    for i := 0 to |lines|
      invariant VerifyLines(s, hasKey, lines[..i])
                == Progress(report, prevHash, expectedIndex, leaves, lastSigned, lastEvent, lastHash)
    {
      ghost var p := Progress(report, prevHash, expectedIndex, leaves, lastSigned, lastEvent, lastHash);
      var l := lines[i];
      assert lines[..i + 1][..i] == lines[..i];
      assert VerifyLines(s, hasKey, lines[..i + 1]) == VerifyLine(s, hasKey, p, l);
      hide VerifyLines, HeaderStep, CheckpointStep, EventReport;
      match l {
        case Blank =>
        case Garbage =>
          report := report.(valid := false);
        case Header(_, _, _, _) =>
          report := HeaderStep(s, hasKey, l, report);
        case Checkpoint(index, _, _, _) =>
          var before := report.validSignatures;
          report := CheckpointStep(s, hasKey, l, leaves, expectedIndex, report);
          if report.validSignatures > before {
            lastSigned := index;
          }
        case Event(_, hash) =>
          report := EventReport(
            s, l, Progress(report, prevHash, expectedIndex, leaves, lastSigned, lastEvent, lastHash));
          var stored := if Falsy(hash) then Hex([]) else hash.value;
          leaves := leaves + [stored];
          if !Falsy(hash) {
            prevHash := stored;
          }
          lastEvent := expectedIndex;
          lastHash := Some(stored);
          expectedIndex := expectedIndex + 1;
          report := report.(eventCount := report.eventCount + 1);
      }
    }
    assert lines[..|lines|] == lines;
    ghost var end := Progress(report, prevHash, expectedIndex, leaves, lastSigned, lastEvent, lastHash);
    if hasKey && report.mode != SignedChain {
      report := report.(valid := false);
    }
    if hasKey && report.mode == SignedChain && lastEvent >= 0 && lastSigned < lastEvent + 1 {
      report := report.(valid := false);
    }
    assert report == Covered(hasKey, end);
    if head.Some? {
      if head.value.index.Some? && head.value.index.value != lastEvent {
        report := report.(valid := false);
      }
      if head.value.hash.Some? && head.value.hash != lastHash {
        report := report.(valid := false);
      }
      if head.value.root.Some? {
        var root := MerkleRoot(s, leaves);
        if root != head.value.root {
          report := report.(valid := false);
        }
      }
    }
  }

  // ---- The sink -----------------------------------------------------------

  /** The in-memory state of a sink: leaf digests, tail digest and next index. */
  datatype Tail = Tail(leaves: seq<HexText>, prev: HexText, next: int)

  const EMPTY_TAIL := Tail([], Hex(GENESIS), 0)

  /** One line of `_resume`: metadata and unreadable lines are skipped. */
  function ResumeLine(t: Tail, l: Line): Tail {
    match l
    case Event(body, hash) =>
      Tail(t.leaves + [hash.GetOr(Hex([]))], hash.GetOr(t.prev), body.index.GetOr(-1) + 1)
    case _ => t
  }

  function Resumed(lines: seq<Line>): Tail {
    if lines == [] then EMPTY_TAIL else ResumeLine(Resumed(lines[..|lines| - 1]), lines[|lines| - 1])
  }

  /** Whether a sink signs. */
  type Signing = bool

  function HeaderLine(s: Suite, signing: Signing, rest: Text): Line {
    if signing then Header(true, s.keyId, rest, Some(s.sign(HeaderMsg(s.keyId, rest))))
    else Header(false, [], rest, None)
  }

  function CheckpointLine(s: Suite, t: Tail, root: HexText): Line {
    Checkpoint(t.next, Some(root), s.keyId, Some(s.sign(CheckpointMsg(t.next, root, s.keyId))))
  }

  /** A leaf that is not hex, resumed from a damaged file, makes `_merkle_root` raise. */
  predicate CheckpointRaises(s: Suite, signing: Signing, t: Tail) {
    signing && t.leaves != [] && MerkleText(s, t.leaves).None?
  }

  /** The lines `_emit_checkpoint_locked` writes: none without a signer, without events, or when it raises. */
  function CheckpointLines(s: Suite, signing: Signing, t: Tail): seq<Line> {
    if !signing || t.leaves == [] || MerkleText(s, t.leaves).None? then []
    else [CheckpointLine(s, t, MerkleText(s, t.leaves).value)]
  }

  function EventLine(s: Suite, t: Tail, rest: Text): Line {
    var body := Body(Some(t.next), Some(t.prev), rest);
    Event(body, Some(Hex(BodyDigest(s, body))))
  }

  function Appended(t: Tail, l: Line): Tail
    requires l.Event? && l.hash.Some?
  {
    Tail(t.leaves + [l.hash.value], l.hash.value, t.next + 1)
  }

  /** A log file on disk; it may not exist yet. */
  class LogFile {
    var onDisk: bool
    var lines: seq<Line>

    constructor ()
      ensures !onDisk && lines == []
    {
      onDisk, lines := false, [];
    }
  }

  /** The append-only sink. */
  class HashChainSink {
    const suite: Suite
    const signing: Signing
    const every: int
    const file: LogFile
    var leafHashes: seq<HexText>
    var prevHash: HexText
    var nextIndex: int

    function State(): Tail
      reads this
    {
      Tail(leafHashes, prevHash, nextIndex)
    }

    /** Opening writes a header to a new file and otherwise resumes the existing chain. */
    constructor (suite: Suite, signing: Signing, every: int, file: LogFile, rest: Text)
      modifies file
      ensures this.suite == suite && this.signing == signing && this.every == every && this.file == file
      ensures State() == if old(file.onDisk) then Resumed(old(file.lines)) else EMPTY_TAIL
      ensures file.onDisk
      ensures file.lines == old(file.lines) + if old(file.onDisk) then [] else [HeaderLine(suite, signing, rest)]
    {
      this.suite, this.signing, this.every, this.file := suite, signing, every, file;
      leafHashes, prevHash, nextIndex := [], Hex(GENESIS), 0;
      new;
      if file.onDisk {
        Resume();
      } else {
        file.onDisk := true;
        file.lines := file.lines + [HeaderLine(suite, signing, rest)];
      }
    }

    /** `_resume`: read the file once, recovering tail, index and leaves. */
    method Resume()
      requires State() == EMPTY_TAIL
      modifies `leafHashes, `prevHash, `nextIndex
      ensures State() == Resumed(file.lines)
    {
      var lines := file.lines;
      for i := 0 to |lines|
        invariant State() == Resumed(lines[..i])
      {
        assert lines[..i + 1][..i] == lines[..i];
        if lines[i].Event? {
          prevHash := lines[i].hash.GetOr(prevHash);
          nextIndex := lines[i].body.index.GetOr(-1) + 1;
          leafHashes := leafHashes + [lines[i].hash.GetOr(Hex([]))];
        }
      }
      assert lines[..|lines|] == lines;
    }

    /** `append`: link, hash, write; every `every` events also a checkpoint. */
    method Append(rest: Text) returns (record: Line, raised: bool)
      modifies file`lines, `leafHashes, `prevHash, `nextIndex
      ensures record == EventLine(suite, old(State()), rest)
      ensures State() == Appended(old(State()), record)
      ensures file.lines == old(file.lines) + [record]
                + if every > 0 && (old(nextIndex) + 1) % every == 0 then CheckpointLines(suite, signing, State())
                  else []
      ensures raised == (every > 0 && nextIndex % every == 0 && CheckpointRaises(suite, signing, State()))
    {
      raised := false;
      var body := Body(Some(nextIndex), Some(prevHash), rest);
      var digest := Hex(BodyDigest(suite, body));
      record := Event(body, Some(digest));
      file.lines := file.lines + [record];
      leafHashes := leafHashes + [digest];
      prevHash := digest;
      nextIndex := nextIndex + 1;
      if every > 0 && nextIndex % every == 0 {
        raised := EmitCheckpoint();
      }
    }

    /** `emit_checkpoint`: a signed (count, root) pair, unless unsigned or empty. */
    method EmitCheckpoint() returns (raised: bool)
      modifies file`lines
      ensures file.lines == old(file.lines) + CheckpointLines(suite, signing, State())
      ensures raised == CheckpointRaises(suite, signing, State())
    {
      if !signing || leafHashes == [] {
        return false;
      }
      var root := MerkleRoot(suite, leafHashes);
      if root.None? {
        return true;
      }
      file.lines := file.lines + [CheckpointLine(suite, State(), root.value)];
      return false;
    }

    /** `close`: a last checkpoint. */
    method Close() returns (raised: bool)
      modifies file`lines
      ensures file.lines == old(file.lines) + CheckpointLines(suite, signing, State())
      ensures raised == CheckpointRaises(suite, signing, State())
    {
      raised := EmitCheckpoint();
    }
  }
}
