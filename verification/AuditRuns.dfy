/** Every run of the audit sink leaves a file its verifier accepts. */
module AuditRuns {
  import opened Basics
  import opened Canon
  import opened Merkle
  import opened Audit

  /** A log file and, while a sink is open on it, the sink's memory and checkpoint period. */
  datatype Log = Log(onDisk: bool, lines: seq<Line>, sink: Option<Tail>, every: int)

  const NO_LOG := Log(false, [], None, 0)

  datatype Op = Open(header: Text, every: int) | Append(rest: Text) | CheckpointNow | Close

  /** One operation of one writer: open only when closed, everything else only when open. */
  function Apply(s: Suite, signing: Signing, log: Log, op: Op): Option<Log> {
    if op.Open? then
      if log.sink.Some? then None
      else if log.onDisk then Some(Log(true, log.lines, Some(Resumed(log.lines)), op.every))
      else Some(Log(true, log.lines + [HeaderLine(s, signing, op.header)], Some(EMPTY_TAIL), op.every))
    else if log.sink.None? then None
    else
      match op
      case Append(rest) =>
        var record := EventLine(s, log.sink.value, rest);
        var tail := Appended(log.sink.value, record);
        var due := log.every > 0 && tail.next % log.every == 0;
        Some(log.(lines := log.lines + [record] + if due then CheckpointLines(s, signing, tail) else [],
                  sink := Some(tail)))
      case CheckpointNow => Some(log.(lines := log.lines + CheckpointLines(s, signing, log.sink.value)))
      case Close =>
        Some(log.(lines := log.lines + CheckpointLines(s, signing, log.sink.value),
                  sink := if CheckpointRaises(s, signing, log.sink.value) then log.sink else None))
  }

  function Run(s: Suite, signing: Signing, ops: seq<Op>): Option<Log> {
    if ops == [] then Some(NO_LOG)
    else
      match Run(s, signing, ops[..|ops| - 1])
      case None => None
      case Some(log) => Apply(s, signing, log, ops[|ops| - 1])
  }

  function Appends(ops: seq<Op>): nat {
    if ops == [] then 0
    else Appends(ops[..|ops| - 1]) + if ops[|ops| - 1].Append? then 1 else 0
  }

  /** The signature a line carries, if any, verifies. */
  ghost predicate SignatureHolds(s: Suite, l: Line) {
    match l
    case Header(signed, keyId, rest, signature) =>
      signed && signature.Some? ==> s.verify(HeaderMsg(keyId, rest), signature.value)
    case Checkpoint(index, root, keyId, signature) =>
      root.Some? && signature.Some? ==> s.verify(CheckpointMsg(index, root.value, keyId), signature.value)
    case _ => true
  }

  /** Digests have 32 bytes and the signatures the writer put into its lines verify. */
  ghost predicate SuiteOk(s: Suite, lines: seq<Line>) {
    Is256Bit(s.h) && forall l :: l in lines ==> SignatureHolds(s, l)
  }

  function TailOf(p: Progress): Tail {
    Tail(p.leaves, p.prevHash, p.expectedIndex)
  }

  ghost predicate LeavesOk(leaves: seq<HexText>) {
    forall x :: x in leaves ==> x.Hex? && |x.bytes| == 32
  }

  /** The verifier, run on everything written so far, has found no fault and tracks the tail. */
  ghost predicate Tracks(s: Suite, signing: Signing, p: Progress) {
    && p.report.valid && p.report.invalidSignatures == 0
    && p.report.eventCount == p.expectedIndex == |p.leaves|
    && LeavesOk(p.leaves)
    && p.lastEvent == |p.leaves| - 1 && p.lastSigned <= |p.leaves|
    && p.lastHash == (if p.leaves == [] then None else Some(p.prevHash))
    && p.report.mode == (if signing then SignedChain else UnsignedChain)
    && p.report.chainKeyId == (if signing then s.keyId else [])
  }

  ghost predicate Invariant(s: Suite, signing: Signing, log: Log) {
    var p := VerifyLines(s, signing, log.lines);
    && (log.onDisk ==> Tracks(s, signing, p) && Resumed(log.lines) == TailOf(p))
    && (!log.onDisk ==> log.lines == [] && log.sink.None?)
    && (log.sink.Some? ==> log.sink.value == TailOf(p))
    && (log.onDisk && log.sink.None? && signing ==> p.leaves == [] || p.lastSigned == |p.leaves|)
  }

  lemma AddLine(s: Suite, hasKey: bool, lines: seq<Line>, l: Line)
    ensures VerifyLines(s, hasKey, lines + [l]) == VerifyLine(s, hasKey, VerifyLines(s, hasKey, lines), l)
    ensures Resumed(lines + [l]) == ResumeLine(Resumed(lines), l)
  {
  }

  lemma HeaderTracks(s: Suite, signing: Signing, rest: Text)
    requires SuiteOk(s, [HeaderLine(s, signing, rest)])
    ensures Tracks(s, signing, VerifyLines(s, signing, [HeaderLine(s, signing, rest)]))
    ensures TailOf(VerifyLines(s, signing, [HeaderLine(s, signing, rest)])) == EMPTY_TAIL
    ensures Resumed([HeaderLine(s, signing, rest)]) == EMPTY_TAIL
  {
    assert SignatureHolds(s, HeaderLine(s, signing, rest));
  }

  /** An honest event keeps the verifier on track and moves both tails alike. */
  lemma EventTracks(s: Suite, signing: Signing, p: Progress, rest: Text)
    requires Is256Bit(s.h) && Tracks(s, signing, p)
    ensures var l := EventLine(s, TailOf(p), rest);
            var q := VerifyLine(s, signing, p, l);
            && Tracks(s, signing, q) && TailOf(q) == Appended(TailOf(p), l) == ResumeLine(TailOf(p), l)
            && |q.leaves| == |p.leaves| + 1
  {
  }

  /** An honest checkpoint verifies and covers every event so far. */
  lemma CheckpointTracks(s: Suite, signing: Signing, p: Progress)
    requires SuiteOk(s, CheckpointLines(s, signing, TailOf(p))) && Tracks(s, signing, p)
    ensures var ls := CheckpointLines(s, signing, TailOf(p));
            && |ls| <= 1
            && (signing && p.leaves != [] ==> |ls| == 1)
            && (|ls| == 1 ==>
                  var q := VerifyLine(s, signing, p, ls[0]);
                  && Tracks(s, signing, q) && TailOf(q) == TailOf(p) == ResumeLine(TailOf(p), ls[0])
                  && q.lastSigned == |q.leaves|)
  {
    var ls := CheckpointLines(s, signing, TailOf(p));
    assert |ls| == 1 ==> SignatureHolds(s, ls[0]);
  }

  lemma AddCheckpoint(s: Suite, signing: Signing, lines: seq<Line>)
    requires Tracks(s, signing, VerifyLines(s, signing, lines))
    requires SuiteOk(s, CheckpointLines(s, signing, TailOf(VerifyLines(s, signing, lines))))
    requires Resumed(lines) == TailOf(VerifyLines(s, signing, lines))
    ensures var p := VerifyLines(s, signing, lines);
            var more := lines + CheckpointLines(s, signing, TailOf(p));
            var q := VerifyLines(s, signing, more);
            && Tracks(s, signing, q) && Resumed(more) == TailOf(q) == TailOf(p)
            && (signing ==> q.leaves == [] || q.lastSigned == |q.leaves|)
  {
    hide Tracks, CheckpointLines, VerifyLine, ResumeLine;
    var p := VerifyLines(s, signing, lines);
    var ls := CheckpointLines(s, signing, TailOf(p));
    CheckpointTracks(s, signing, p);
    if |ls| == 1 {
      assert ls == [ls[0]];
      AddLine(s, signing, lines, ls[0]);
    } else {
      assert ls == [] && lines + ls == lines;
    }
  }

  lemma AddEvent(s: Suite, signing: Signing, lines: seq<Line>, rest: Text)
    requires Is256Bit(s.h) && Tracks(s, signing, VerifyLines(s, signing, lines))
    requires Resumed(lines) == TailOf(VerifyLines(s, signing, lines))
    ensures var p := VerifyLines(s, signing, lines);
            var l := EventLine(s, TailOf(p), rest);
            var q := VerifyLines(s, signing, lines + [l]);
            && Tracks(s, signing, q) && Resumed(lines + [l]) == TailOf(q) == Appended(TailOf(p), l)
            && |q.leaves| == |p.leaves| + 1
  {
    hide Tracks, VerifyLine, ResumeLine;
    var p := VerifyLines(s, signing, lines);
    EventTracks(s, signing, p, rest);
    AddLine(s, signing, lines, EventLine(s, TailOf(p), rest));
  }

  /** Events counted by the verifier on the file so far. */
  function Counted(s: Suite, signing: Signing, log: Log): nat {
    |VerifyLines(s, signing, log.lines).leaves|
  }

  lemma ApplyKeepsInvariant(s: Suite, signing: Signing, log: Log, op: Op)
    requires Invariant(s, signing, log) && Apply(s, signing, log, op).Some?
    requires SuiteOk(s, Apply(s, signing, log, op).value.lines)
    ensures Invariant(s, signing, Apply(s, signing, log, op).value)
    ensures Counted(s, signing, Apply(s, signing, log, op).value)
            == Counted(s, signing, log) + if op.Append? then 1 else 0
  {
    match op
    case Open(header, every) =>
      if !log.onDisk {
        hide Tracks, VerifyLine;
        HeaderTracks(s, signing, header);
        assert [] + [HeaderLine(s, signing, header)] == [HeaderLine(s, signing, header)];
      }
    case Append(rest) => AppendKeepsInvariant(s, signing, log, rest);
    case CheckpointNow =>
      hide Tracks, CheckpointLines;
      AddCheckpoint(s, signing, log.lines);
    case Close =>
      hide Tracks, CheckpointLines;
      AddCheckpoint(s, signing, log.lines);
  }

  lemma AppendKeepsInvariant(s: Suite, signing: Signing, log: Log, rest: Text)
    requires Invariant(s, signing, log) && log.sink.Some?
    requires SuiteOk(s, Apply(s, signing, log, Append(rest)).value.lines)
    ensures var after := Apply(s, signing, log, Append(rest)).value;
            Invariant(s, signing, after) && Counted(s, signing, after) == Counted(s, signing, log) + 1
  {
    hide Tracks, CheckpointLines, EventLine, Appended;
    var record := EventLine(s, log.sink.value, rest);
    AddEvent(s, signing, log.lines, rest);
    var after := Apply(s, signing, log, Append(rest)).value;
    var more := CheckpointLines(s, signing, after.sink.value);
    if after.lines == log.lines + [record] + more {
      AddCheckpoint(s, signing, log.lines + [record]);
    } else {
      assert after.lines == log.lines + [record];
    }
  }

  lemma ApplyOnlyAdds(s: Suite, signing: Signing, log: Log, op: Op)
    requires Apply(s, signing, log, op).Some?
    ensures log.lines <= Apply(s, signing, log, op).value.lines
  {
  }

  lemma {:induction false} RunKeepsInvariant(s: Suite, signing: Signing, ops: seq<Op>)
    requires Run(s, signing, ops).Some? && SuiteOk(s, Run(s, signing, ops).value.lines)
    ensures Invariant(s, signing, Run(s, signing, ops).value)
    ensures Counted(s, signing, Run(s, signing, ops).value) == Appends(ops)
    ensures ops != [] ==> Run(s, signing, ops).value.onDisk
  {
    if ops != [] {
      var init := ops[..|ops| - 1];
      ApplyOnlyAdds(s, signing, Run(s, signing, init).value, ops[|ops| - 1]);
      RunKeepsInvariant(s, signing, init);
      hide Invariant, Counted;
      ApplyKeepsInvariant(s, signing, Run(s, signing, init).value, ops[|ops| - 1]);
    }
  }

  /** The anchor a writer would publish for its current tail. */
  function AnchorOf(s: Suite, t: Tail): Head {
    Head(Some(t.next - 1), if t.leaves == [] then None else Some(t.prev), MerkleText(s, t.leaves))
  }

  /**
   Completeness: after any run that ends closed, the verifier (with the key if the
   writer signed) accepts the file, counts exactly the appended events, sees no bad
   signature, and the writer's own anchored head matches.
   */
  lemma RunVerifies(s: Suite, signing: Signing, ops: seq<Op>)
    requires ops != [] && Run(s, signing, ops).Some? && Run(s, signing, ops).value.sink.None?
    requires SuiteOk(s, Run(s, signing, ops).value.lines)
    ensures var lines := Run(s, signing, ops).value.lines;
            var r := Verified(s, signing, lines, Some(AnchorOf(s, Resumed(lines))));
            r.valid && r.eventCount == Appends(ops) && r.invalidSignatures == 0
  {
    RunKeepsInvariant(s, signing, ops);
  }

  /** No checkpoint of a run ever raises: every leaf is the hex of a digest. */
  lemma RunNeverRaises(s: Suite, signing: Signing, ops: seq<Op>)
    requires Run(s, signing, ops).Some? && SuiteOk(s, Run(s, signing, ops).value.lines)
    requires Run(s, signing, ops).value.sink.Some?
    ensures !CheckpointRaises(s, signing, Run(s, signing, ops).value.sink.value)
  {
    RunKeepsInvariant(s, signing, ops);
  }

  /** Reopening reads back exactly what the open sink held: tail hash, index and leaves. */
  lemma ResumeRestores(s: Suite, signing: Signing, ops: seq<Op>)
    requires Run(s, signing, ops).Some? && Run(s, signing, ops).value.sink.Some?
    requires SuiteOk(s, Run(s, signing, ops).value.lines)
    ensures Resumed(Run(s, signing, ops).value.lines) == Run(s, signing, ops).value.sink.value
  {
    RunKeepsInvariant(s, signing, ops);
  }

  // ---- The objects themselves ---------------------------------------------

  lemma {:induction false} FailedRunStaysFailed(s: Suite, signing: Signing, ops: seq<Op>, i: nat)
    requires i <= |ops| && Run(s, signing, ops[..i]).None?
    ensures Run(s, signing, ops).None?
  {
    if i < |ops| {
      var init := ops[..|ops| - 1];
      assert init[..i] == ops[..i];
      FailedRunStaysFailed(s, signing, init, i);
    } else {
      assert ops[..i] == ops;
    }
  }

  /** The abstract state of a file and the sink open on it, if any. */
  ghost function ViewOf(file: LogFile, sink: HashChainSink?, every: int): Log
    reads file, if sink == null then {} else {sink}
  {
    Log(file.onDisk, file.lines, if sink == null then None else Some(sink.State()), every)
  }

  /** One operation carried out by the sink object. */
  method Step(s: Suite, signing: Signing, file: LogFile, sink: HashChainSink?, op: Op, every: int)
    returns (ok: bool, next: HashChainSink?, period: int)
    requires sink != null ==> sink.file == file && sink.suite == s && sink.signing == signing && sink.every == every
    modifies file, if sink == null then {} else {sink}
    ensures ok == Apply(s, signing, old(ViewOf(file, sink, every)), op).Some?
    ensures ok ==> ViewOf(file, next, period) == Apply(s, signing, old(ViewOf(file, sink, every)), op).value
    ensures ok && next != null ==>
              next.file == file && next.suite == s && next.signing == signing && next.every == period
    ensures ok && next != null ==> next == sink || fresh(next)
  {
    ok, next, period := true, sink, every;
    if sink == null {
      if !op.Open? {
        return false, sink, every;
      }
      next := new HashChainSink(s, signing, op.every, file, op.header);
      period := op.every;
      return;
    }
    match op {
      case Open(_, _) => ok := false;
      case Append(rest) => var record, raised := sink.Append(rest);
      case CheckpointNow => var raised := sink.EmitCheckpoint();
      case Close =>
        var raised := sink.Close();
        if !raised {
          next := null;
        }
    }
  }

  /** Carrying a whole run out on the objects leaves exactly the file the lemmas above speak of. */
  method Drive(s: Suite, signing: Signing, ops: seq<Op>) returns (ok: bool, file: LogFile)
    ensures fresh(file) && ok == Run(s, signing, ops).Some?
    ensures ok ==> file.onDisk == Run(s, signing, ops).value.onDisk && file.lines == Run(s, signing, ops).value.lines
  {
    file := new LogFile();
    var sink: HashChainSink?, every := null, 0;
    for i := 0 to |ops|
      invariant fresh(file) && (sink != null ==> fresh(sink))
      invariant sink != null ==>
                  sink.file == file && sink.suite == s && sink.signing == signing && sink.every == every
      invariant Run(s, signing, ops[..i]) == Some(ViewOf(file, sink, every))
    {
      assert ops[..i + 1][..i] == ops[..i];
      hide Apply;
      ok, sink, every := Step(s, signing, file, sink, ops[i], every);
      if !ok {
        FailedRunStaysFailed(s, signing, ops, i + 1);
        return;
      }
    }
    assert ops[..|ops|] == ops;
    ok := true;
  }
}
