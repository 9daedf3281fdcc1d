/** What single containment steps, and a hold followed by its resume, do to the enforcement files. */
module HoldLifecycle {
  import opened Basics
  import opened Merkle
  import opened Ledger
  import opened ReceiptStream
  import opened Containment
  import opened ContainmentRuns

  predicate Succeeded(outcome: Outcome) {
    outcome.HoldApplied? || outcome.PendingOpened? || outcome.ApprovalRecorded? || outcome.HoldAborted?
    || outcome.HoldResumed? || outcome.ResumeRefused? || outcome.Elsewhere?
  }

  /** The receipt that must precede a change of state. */
  predicate Witnesses(r: Receipt, before: State, next: State) {
    match next
    case Held(_, _, _, digest, _, _, roll, _) => r.HoldReceipt? && r.before == digest && r.roll == roll
    case Pending(scope, scopeId, _, _, approvers, _, _, _) =>
      if before.Idle? then r.PendingReceipt?
      else
        var last := |approvers| - 1;
        last >= 0 && r == ApprovalReceipt(scope, scopeId, approvers[last], approvers[..last])
    case Idle =>
      if before.Pending? then r.AbortReceipt?
      else before.Held? && r.ResumeReceipt? && r.restored == before.originalDigest
  }

  lemma ApplyOutcomes(site: Site, w: World, scope: Scope, scopeId: Id, reason: string, ids: seq<Id>, ok: bool)
    ensures var (v, outcome) := ApplyHold(site, w, scope, scopeId, reason, ids, ok);
            && (outcome != HoldApplied ==> v == w && !Succeeded(outcome))
            && (outcome == HoldApplied ==>
                  && TargetOf(w, scope).Some? && v.state.Held? && v.state.scope == scope
                  && v.state.original == TargetOf(w, scope).value
                  && v.state.roll == (if w.state.Pending? then Some(w.state.approvers) else None)
                  && |v.receipts| == |w.receipts| + 1 && w.receipts <= v.receipts
                  && Witnesses(v.receipts[|w.receipts|], w.state, v.state))
  {
    hide Head, Ids;
  }

  /**
   A step that fails changes no enforcement file, no state and no marker; at most the
   approval that came before a failed apply stays receipted.
   */
  lemma FailureChangesNothing(site: Site, w: World, op: Op)
    requires !Succeeded(Perform(site, w, op).1)
    ensures var v := Perform(site, w, op).0;
            && v == w.(receipts := v.receipts, anchor := v.anchor)
            && (v.receipts == w.receipts
                || (op.OpApprove? && w.state.Pending?
                    && v.receipts
                       == w.receipts
                          + [ApprovalReceipt(w.state.scope, w.state.scopeId, op.approver, w.state.approvers)]))
  {
    hide Head, Ids, ApplyHold, FindReceipt;
    match op
    case OpHold(scope, scopeId, reason, ids, ok) => ApplyOutcomes(site, w, scope, scopeId, reason, ids, ok);
    case OpApprove(approver, ids, ok, applyOk) => ApproveFailure(site, w, approver, ids, ok, applyOk);
    case _ =>
  }

  lemma ApproveFailure(site: Site, w: World, approver: Id, ids: seq<Id>, ok: bool, applyOk: bool)
    requires !Succeeded(Approve(site, w, approver, ids, ok, applyOk).1)
    ensures var v := Approve(site, w, approver, ids, ok, applyOk).0;
            && v == w.(receipts := v.receipts, anchor := v.anchor)
            && (v.receipts == w.receipts
                || (w.state.Pending?
                    && v.receipts
                       == w.receipts
                          + [ApprovalReceipt(w.state.scope, w.state.scopeId, approver, w.state.approvers)]))
  {
    hide Emit, ApplyHold;
    if w.state.Pending? {
      var st := w.state;
      var receipt := ApprovalReceipt(st.scope, st.scopeId, approver, st.approvers);
      if Emit(site, w, receipt, ok).Some? {
        EmitAppends(site, w, receipt, ok);
        var next := st.(approvers := st.approvers + [approver],
                        approvalIds := st.approvalIds + [site.receiptId(receipt)]);
        ApplyOutcomes(site, Emit(site, w, receipt, ok).value.(state := next), st.scope, st.scopeId, st.reason,
                      ids, applyOk);
      }
    }
  }

  /** No change of state without its receipt, appended to an untouched stream. */
  lemma EveryTransitionIsReceipted(site: Site, w: World, op: Op)
    requires Perform(site, w, op).0.state != w.state
    ensures var v := Perform(site, w, op).0;
            && w.receipts < v.receipts && Witnesses(v.receipts[|v.receipts| - 1], w.state, v.state)
  {
    hide Head, Ids, ApplyHold, FindReceipt;
    match op
    case OpHold(scope, scopeId, reason, ids, ok) => ApplyOutcomes(site, w, scope, scopeId, reason, ids, ok);
    case OpApprove(approver, ids, ok, applyOk) => ApproveTransition(site, w, approver, ids, ok, applyOk);
    case _ =>
  }

  lemma ApproveTransition(site: Site, w: World, approver: Id, ids: seq<Id>, ok: bool, applyOk: bool)
    requires Approve(site, w, approver, ids, ok, applyOk).0.state != w.state
    ensures var v := Approve(site, w, approver, ids, ok, applyOk).0;
            && w.receipts < v.receipts && Witnesses(v.receipts[|v.receipts| - 1], w.state, v.state)
  {
    hide Emit, ApplyHold;
    var st := w.state;
    var receipt := ApprovalReceipt(st.scope, st.scopeId, approver, st.approvers);
    EmitAppends(site, w, receipt, ok);
    var next := st.(approvers := st.approvers + [approver],
                        approvalIds := st.approvalIds + [site.receiptId(receipt)]);
    var v := Emit(site, w, receipt, ok).value.(state := next);
    ApplyOutcomes(site, v, st.scope, st.scopeId, st.reason, ids, applyOk);
    assert next.approvers[..|st.approvers|] == st.approvers;
  }

  // ---- Hold, then resume --------------------------------------------------

  ghost predicate NeverResumed(site: Site, w: World, ops: seq<Op>)
    decreases |ops|
  {
    ops != [] ==> Perform(site, w, ops[0]).1 != HoldResumed && NeverResumed(site, Perform(site, w, ops[0]).0, ops[1..])
  }

  /** While held, only a successful resume touches the state. */
  lemma HeldIsFrozen(site: Site, w: World, op: Op)
    requires w.state.Held? && Perform(site, w, op).1 != HoldResumed
    ensures Perform(site, w, op).0.state == w.state
  {
  }

  lemma {:induction false} RunFrozen(site: Site, w: World, ops: seq<Op>)
    requires w.state.Held? && NeverResumed(site, w, ops)
    ensures Run(site, w, ops).state == w.state
    decreases |ops|
  {
    hide Perform;
    if ops != [] {
      HeldIsFrozen(site, w, ops[0]);
      RunFrozen(site, Perform(site, w, ops[0]).0, ops[1..]);
    }
  }

  lemma HoldReadsTarget(site: Site, w: World, op: Op)
    requires Perform(site, w, op).1 == HoldApplied
    ensures var v := Perform(site, w, op).0;
            v.state.Held? && TargetOf(w, v.state.scope) == Some(v.state.original)
  {
    hide Head, Ids, ApplyHold, Emit, FindReceipt;
    match op
    case OpHold(scope, scopeId, reason, ids, ok) => ApplyOutcomes(site, w, scope, scopeId, reason, ids, ok);
    case OpApprove(approver, ids, ok, applyOk) =>
      var st := w.state;
      var receipt := ApprovalReceipt(st.scope, st.scopeId, approver, st.approvers);
      EmitAppends(site, w, receipt, ok);
      var next := st.(approvers := st.approvers + [approver],
                        approvalIds := st.approvalIds + [site.receiptId(receipt)]);
      ApplyOutcomes(site, Emit(site, w, receipt, ok).value.(state := next), st.scope, st.scopeId, st.reason,
                      ids, applyOk);
    case _ =>
  }

  /** The ids a hold of this scope stops, read off the ledger. */
  ghost predicate Stops(w: World, scope: Scope, scopeId: Id, id: Id) {
    if scope == AgentScope then id in w.records && w.records[id].agent == scopeId
    else scope == ChainScope && id in Subtree(w.records, scopeId)
  }

  lemma ApplyWrites(site: Site, w: World, scope: Scope, scopeId: Id, reason: string, ids: seq<Id>, ok: bool)
    requires ApplyHold(site, w, scope, scopeId, reason, ids, ok).1 == HoldApplied
    requires ResolvedTo(site, w, scope, scopeId, ids)
    ensures Written(site, w, ApplyHold(site, w, scope, scopeId, reason, ids, ok).0, scope, scopeId)
  {
    hide Head, Ids, Anchored, Subtree;
    var v := ApplyHold(site, w, scope, scopeId, reason, ids, ok).0;
    if scope != GlobalScope {
      assert v.rows[|w.rows|..] == Revocations(ids);
      forall id ensures Revoked(id) in Revocations(ids) <==> id in ids {
        if id in ids {
          var i :| 0 <= i < |ids| && ids[i] == id;
          assert Revocations(ids)[i] == Revoked(id);
        }
      }
    }
  }

  /** What a hold of this scope changes in the enforcement files, and no more. */
  ghost predicate Written(site: Site, w: World, v: World, scope: Scope, scopeId: Id) {
    if scope == GlobalScope then
      w.policy.Some? && v.policy == Some(site.denyAll(w.policy.value)) && v.rows == w.rows
    else
      && v.policy == w.policy && w.rows <= v.rows
      && forall id :: Revoked(id) in v.rows[|w.rows|..] <==> Stops(w, scope, scopeId, id)
  }

  /**
   The step that applies a hold replaces the policy by its deny-all rewrite, or appends the revocation of
   exactly the ids in scope at that moment.
   */
  lemma HoldWrites(site: Site, w: World, op: Op)
    requires Perform(site, w, op).1 == HoldApplied && Allowed(site, w, op)
    ensures var v := Perform(site, w, op).0;
            v.state.Held? && Written(site, w, v, v.state.scope, v.state.scopeId)
  {
    hide Head, Ids, ApplyHold, Emit, FindReceipt, Stops, Resolves, Written;
    HoldReadsTarget(site, w, op);
    match op
    case OpHold(scope, scopeId, reason, ids, ok) =>
      ApplyWrites(site, w, scope, scopeId, reason, ids, ok);
      AppliedScope(site, w, scope, scopeId, reason, ids, ok);
    case OpApprove(approver, ids, ok, applyOk) =>
      var st := w.state;
      var receipt := ApprovalReceipt(st.scope, st.scopeId, approver, st.approvers);
      EmitAppends(site, w, receipt, ok);
      var next := st.(approvers := st.approvers + [approver],
                      approvalIds := st.approvalIds + [site.receiptId(receipt)]);
      var u := Emit(site, w, receipt, ok).value.(state := next);
      SameLedger(site, w, u, st.scope, st.scopeId, ids);
      ApplyWrites(site, u, st.scope, st.scopeId, st.reason, ids, applyOk);
      AppliedScope(site, u, st.scope, st.scopeId, st.reason, ids, applyOk);
      var v := ApplyHold(site, u, st.scope, st.scopeId, st.reason, ids, applyOk).0;
      WrittenSame(site, w, u, v, st.scope, st.scopeId);
    case _ =>
  }

  lemma AppliedScope(site: Site, w: World, scope: Scope, scopeId: Id, reason: string, ids: seq<Id>, ok: bool)
    requires ApplyHold(site, w, scope, scopeId, reason, ids, ok).1 == HoldApplied
    ensures var v := ApplyHold(site, w, scope, scopeId, reason, ids, ok).0;
            v.state.Held? && v.state.scope == scope && v.state.scopeId == scopeId
  {
  }

  lemma SameLedger(site: Site, w: World, u: World, scope: Scope, scopeId: Id, ids: seq<Id>)
    requires u.records == w.records && ResolvedTo(site, w, scope, scopeId, ids)
    ensures ResolvedTo(site, u, scope, scopeId, ids)
  {
  }

  lemma WrittenSame(site: Site, w: World, u: World, v: World, scope: Scope, scopeId: Id)
    requires u.records == w.records && u.policy == w.policy && u.rows == w.rows && Written(site, u, v, scope, scopeId)
    ensures Written(site, w, v, scope, scopeId)
  {
    assert forall id :: Stops(w, scope, scopeId, id) <==> Stops(u, scope, scopeId, id);
  }

  /** The kind of content belongs to the scope. */
  predicate RightKind(st: State) {
    st.Held? ==> (st.scope == GlobalScope <==> st.original.PolicyBytes?)
  }

  lemma ResumeWrites(site: Site, w: World, ok: bool)
    requires Resume(site, w, ok).1 == HoldResumed && RightKind(w.state)
    ensures var v := Resume(site, w, ok).0;
            && w.state.Held? && v.state == Idle
            && TargetOf(v, w.state.scope) == Some(w.state.original)
            && v.receipts == w.receipts + [ResumeReceipt(w.state.scope, w.state.scopeId, w.state.heldDigest,
                                                         w.state.originalDigest, w.state.receiptId)]
  {
  }

  /**
   Whatever anybody does while the hold is in force, the resume that ends it brings back
   exactly the bytes the hold read, and its receipt is already in the stream.
   */
  lemma ResumeUndoesHold(site: Site, w: World, op: Op, ops: seq<Op>, ok: bool)
    requires Perform(site, w, op).1 == HoldApplied
    requires NeverResumed(site, Perform(site, w, op).0, ops)
    requires Resume(site, Run(site, Perform(site, w, op).0, ops), ok).1 == HoldResumed
    ensures var held := Perform(site, w, op).0.state;
            var v := Resume(site, Run(site, Perform(site, w, op).0, ops), ok).0;
            && held.Held? && TargetOf(v, held.scope) == TargetOf(w, held.scope) && v.state == Idle
            && v.receipts != []
            && v.receipts[|v.receipts| - 1]
               == ResumeReceipt(held.scope, held.scopeId, held.heldDigest, held.originalDigest, held.receiptId)
  {
    hide Perform, Resume, NeverResumed;
    HoldReadsTarget(site, w, op);
    var held := Perform(site, w, op).0;
    RunFrozen(site, held, ops);
    ResumeWrites(site, Run(site, held, ops), ok);
  }

  /** Under a hold nobody takes a row out of the revocations file. */
  lemma HeldKeepsRows(site: Site, w: World, op: Op)
    requires w.state.Held? && Perform(site, w, op).1 != HoldResumed
    ensures w.rows <= Perform(site, w, op).0.rows
  {
    hide ActiveHolds, FirstCover, FindReceipt, Head, Ids;
  }

  lemma {:induction false} RunKeepsRows(site: Site, w: World, ops: seq<Op>)
    requires w.state.Held? && NeverResumed(site, w, ops)
    ensures w.rows <= Run(site, w, ops).rows
    decreases |ops|
  {
    hide Perform;
    if ops != [] {
      HeldIsFrozen(site, w, ops[0]);
      HeldKeepsRows(site, w, ops[0]);
      RunKeepsRows(site, Perform(site, w, ops[0]).0, ops[1..]);
    }
  }

  lemma ResumeRows(site: Site, w: World, ok: bool)
    requires Resume(site, w, ok).1 == HoldResumed && RightKind(w.state)
    ensures w.state.Held?
    ensures Resume(site, w, ok).0.rows == if w.state.scope == GlobalScope then w.rows else w.state.original.rows
  {
    hide FindReceipt, Head, Ids;
  }

  /**
   The exact restore drops what others revoked meanwhile: after the resume of an agent or
   chain hold an id is revoked if and only if it was in the bytes the hold read, however
   often it was revoked while the hold was in force. A global hold drops no revocation.
   */
  lemma RevokedAfterResumeIff(site: Site, w: World, op: Op, ops: seq<Op>, ok: bool, id: Id)
    requires Perform(site, w, op).1 == HoldApplied
    requires NeverResumed(site, Perform(site, w, op).0, ops)
    requires Resume(site, Run(site, Perform(site, w, op).0, ops), ok).1 == HoldResumed
    ensures var held := Perform(site, w, op).0;
            var before := Run(site, held, ops);
            var v := Resume(site, before, ok).0;
            && held.state.Held?
            && (held.state.scope != GlobalScope ==> (IsRevoked(v.rows, id) <==> IsRevoked(w.rows, id)))
            && (held.state.scope == GlobalScope ==> v.rows == before.rows && held.rows <= v.rows)
  {
    hide Perform, Resume, NeverResumed;
    HoldReadsTarget(site, w, op);
    var held := Perform(site, w, op).0;
    RunFrozen(site, held, ops);
    RunKeepsRows(site, held, ops);
    ResumeRows(site, Run(site, held, ops), ok);
  }

  // ---- Resume against a tampered state or stream --------------------------

  lemma {:induction false} FindReceiptFinds(site: Site, receipts: seq<Receipt>, id: Bytes)
    ensures var found := FindReceipt(site, receipts, id);
            if found.Some? then found.value in receipts && site.receiptId(found.value) == id
            else forall r :: r in receipts ==> site.receiptId(r) != id
  {
    if receipts != [] && site.receiptId(receipts[0]) != id {
      FindReceiptFinds(site, receipts[1..], id);
      assert receipts == [receipts[0]] + receipts[1..];
    }
  }

  /**
   Whoever wrote the state file, a resume restores only bytes whose digest some receipt
   of the same scope recorded as the bytes before a transition, under the pinned key.
   */
  lemma ResumeIsBoundToReceipt(site: Site, w: World, ok: bool) returns (r: Receipt)
    requires Resume(site, w, ok).1 == HoldResumed
    ensures w.state.Held? && w.state.pin == w.key != "" && Anchored(site, w)
    ensures r in w.receipts && site.receiptId(r) == w.state.receiptId
    ensures r.scope == w.state.scope
    ensures if r.HoldReceipt? || r.ResumeReceipt? then r.before == site.digest(w.state.original)
            else site.digest(w.state.original) == []
  {
    hide Head, Ids, FindReceipt;
    r := FindReceipt(site, w.receipts, w.state.receiptId).value;
    FindReceiptFinds(site, w.receipts, w.state.receiptId);
  }

  ghost predicate DistinctIds(site: Site, receipts: seq<Receipt>) {
    forall a, b :: a in receipts && b in receipts && site.receiptId(a) == site.receiptId(b) ==> a == b
  }

  /**
   In every reachable held world whose receipts have distinct ids, a resume whose receipt can
   be written succeeds exactly under the pinned key.
   */
  lemma ResumeSucceedsIff(site: Site, w: World)
    requires Invariant(site, w) && w.state.Held? && DistinctIds(site, w.receipts)
    ensures Resume(site, w, true).1 == HoldResumed <==> w.state.pin == w.key != ""
  {
    hide MarkersMatch, NoEscape, QuorumKept, Keyed, FindReceipt, Head, Ids;
    FindReceiptFinds(site, w.receipts, w.state.receiptId);
    var r :| r in w.receipts && IsHoldReceipt(site, r, w.state);
    assert FindReceipt(site, w.receipts, w.state.receiptId) == Some(r);
  }

  /** Nothing is receipted onto a stream rewritten since it was last anchored. */
  lemma RewrittenStreamRefused(site: Site, anchored: seq<Bytes>, w: World, r: Receipt, ok: bool)
    requires HexDigests(site.h) && w.anchor == Some(Anchor(|anchored|, Head(site.h, anchored)))
    requires CollisionFree(site.h, FoldInputs(site.h, anchored) + FoldInputs(site.h, Ids(site, w.receipts)))
    ensures Emit(site, w, r, ok).Some? <==> ok && Ids(site, w.receipts) == anchored
  {
    NoGapIff(site.h, anchored, Some(Ids(site, w.receipts)));
  }

  // ---- Quorum -------------------------------------------------------------

  predicate Enforces(a: World, b: World) {
    a.policy == b.policy && a.rows == b.rows
  }

  /**
   With a quorum above one, the manager changes an enforcement file only in the approval
   that completes the quorum, or in a resume; an abort never does.
   */
  lemma EnforcementNeedsQuorum(site: Site, w: World, op: Op)
    requires Invariant(site, w) && site.min > 1
    ensures var (v, outcome) := Perform(site, w, op);
            || Enforces(w, v)
            || (op.OpApprove? && outcome == HoldApplied && w.state.Pending?
                && op.approver !in w.state.approvers && |w.state.approvers| + 1 == site.min
                && v.state.Held? && v.state.roll == Some(w.state.approvers + [op.approver]))
            || (op.OpResume? && outcome == HoldResumed)
            || ((op.OpRegister? || op.OpRevoke?) && v.policy == w.policy && w.rows < v.rows)
  {
    hide Head, Ids, ApplyHold, MarkersMatch, NoEscape, HeldIsReceipted, Keyed, RollReceipted, FindReceipt;
    if op.OpApprove? && w.state.Pending? {
      var st := w.state;
      var receipt := ApprovalReceipt(st.scope, st.scopeId, op.approver, st.approvers);
      if Emit(site, w, receipt, op.ok).Some? {
        var next := st.(approvers := st.approvers + [op.approver],
                        approvalIds := st.approvalIds + [site.receiptId(receipt)]);
        ApplyOutcomes(site, Emit(site, w, receipt, op.ok).value.(state := next), st.scope, st.scopeId, st.reason,
                      op.ids, op.applyOk);
      }
    }
  }

  /** In every reachable world a hold in force above a quorum of one names that many distinct receipted approvers. */
  lemma HeldByQuorum(site: Site, w: World, ops: seq<Op>)
    requires Invariant(site, w) && AllAllowed(site, w, ops) && site.min > 1
    ensures var v := Run(site, w, ops);
            v.state.Held? ==>
              && v.state.roll.Some? && |v.state.roll.value| == site.min
              && RollReceipted(v.receipts, v.state.scope, v.state.scopeId, v.state.roll.value)
  {
    NothingEscapes(site, w, ops);
  }
}
