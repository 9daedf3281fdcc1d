/** What every run of containment operations and ledger registrations keeps. */
module ContainmentRuns {
  import opened Basics
  import opened Ledger
  import opened ReceiptStream
  import opened Containment
  import opened HoldEscape

  /** One step of anybody: the manager, the ledger, another revoker, or a key change. */
  datatype Op =
    | OpHold(scope: Scope, scopeId: Id, reason: string, ids: seq<Id>, ok: bool)
    | OpApprove(approver: Id, ids: seq<Id>, ok: bool, applyOk: bool)
    | OpAbort(approver: Id, ok: bool)
    | OpResume(ok: bool)
    | OpRegister(r: Record, verified: bool)
    | OpRevoke(row: Row)
    | OpRekey(key: string)

  function Perform(site: Site, w: World, op: Op): (World, Outcome) {
    match op
    case OpHold(scope, scopeId, reason, ids, ok) => Hold(site, w, scope, scopeId, reason, ids, ok)
    case OpApprove(approver, ids, ok, applyOk) => Approve(site, w, approver, ids, ok, applyOk)
    case OpAbort(approver, ok) => Abort(site, w, approver, ok)
    case OpResume(ok) => Resume(site, w, ok)
    case OpRegister(r, verified) => (RegisterIn(w, r, verified), Elsewhere)
    case OpRevoke(row) => (w.(rows := w.rows + [row]), Elsewhere)
    case OpRekey(key) => (w.(key := key), Elsewhere)
  }

  /** A registration that leaves nothing unrevoked in the chain held, if one is. */
  ghost predicate RegisterSafe(w: World, r: Record) {
    w.state.Held? && w.state.scope == ChainScope ==> ClosedBelow(w, r, w.state.scopeId)
  }

  /** `ids` is what the ledger resolves an acceptable scope to at this moment. */
  ghost predicate ResolvedTo(site: Site, w: World, scope: Scope, scopeId: Id, ids: seq<Id>) {
    Resolvable(site, w, scope, scopeId) ==> Resolves(w, scope, scopeId, ids)
  }

  ghost predicate Allowed(site: Site, w: World, op: Op) {
    match op
    case OpHold(scope, scopeId, _, ids, _) => ResolvedTo(site, w, scope, scopeId, ids)
    case OpApprove(_, ids, _, _) => w.state.Pending? ==> ResolvedTo(site, w, w.state.scope, w.state.scopeId, ids)
    case OpRegister(r, verified) => verified ==> RegisterSafe(w, r)
    case _ => true
  }

  ghost predicate AllAllowed(site: Site, w: World, ops: seq<Op>)
    decreases |ops|
  {
    ops != [] ==> Allowed(site, w, ops[0]) && AllAllowed(site, Perform(site, w, ops[0]).0, ops[1..])
  }

  function Run(site: Site, w: World, ops: seq<Op>): World
    decreases |ops|
  {
    if ops == [] then w else Run(site, Perform(site, w, ops[0]).0, ops[1..])
  }

  // ---- The invariant ------------------------------------------------------

  function InForce(st: State): seq<Marker> {
    if st.Held? && st.scope != GlobalScope then [HoldMarker(st.scope, st.scopeId, true)] else []
  }

  /** The ledger's fold of the markers yields exactly the current non-global hold. */
  ghost predicate MarkersMatch(w: World) {
    ActiveHolds(w.control) == InForce(w.state)
  }

  /** Every record in the scope of the hold in force is revoked. */
  ghost predicate NoEscape(w: World) {
    w.state.Held? ==> Covered(w, w.state.scope, w.state.scopeId)
  }

  predicate IsHoldReceipt(site: Site, r: Receipt, st: State)
    requires st.Held?
  {
    && r.HoldReceipt? && r.scope == st.scope && r.scopeId == st.scopeId
    && r.before == st.originalDigest && r.roll == st.roll && site.receiptId(r) == st.receiptId
  }

  /** A held state keeps the bytes its receipt describes. */
  ghost predicate HeldIsReceipted(site: Site, w: World) {
    w.state.Held? ==>
      && site.digest(w.state.original) == w.state.originalDigest
      && (w.state.scope == GlobalScope <==> w.state.original.PolicyBytes?)
      && exists r :: r in w.receipts && IsHoldReceipt(site, r, w.state)
  }

  /**
   What the hold wrote is in force, and its digest is the one on record: a global hold denies
   everything the original policy allowed for; any other appended revocations to the original rows.
   */
  ghost predicate HeldIsWritten(site: Site, w: World) {
    w.state.Held? ==>
      if w.state.scope == GlobalScope then
        && w.state.original.PolicyBytes?
        && w.policy == Some(site.denyAll(w.state.original.text))
        && w.state.heldDigest == site.digest(PolicyBytes(site.denyAll(w.state.original.text)))
      else
        && w.state.original.RevocationRows?
        && exists added :: RowsWritten(site, w, added)
  }

  /** Nothing but these revocations was appended, and they are still there. */
  ghost predicate RowsWritten(site: Site, w: World, added: seq<Row>)
    requires w.state.Held? && w.state.original.RevocationRows?
  {
    && (forall i :: 0 <= i < |added| ==> added[i].Revoked?)
    && w.state.original.rows + added <= w.rows
    && w.state.heldDigest == site.digest(RevocationRows(w.state.original.rows + added))
  }

  /** Approvers are distinct and each was receipted, in order, for this scope. */
  ghost predicate RollReceipted(receipts: seq<Receipt>, scope: Scope, scopeId: Id, roll: seq<Id>) {
    NoDup(roll) && forall i :: 0 <= i < |roll| ==> ApprovalReceipt(scope, scopeId, roll[i], roll[..i]) in receipts
  }

  /** Nothing is held below the quorum. */
  ghost predicate QuorumKept(site: Site, w: World) {
    && (w.state.Pending? ==>
          && 1 < site.min == w.state.min && |w.state.approvers| < site.min
          && RollReceipted(w.receipts, w.state.scope, w.state.scopeId, w.state.approvers))
    && (w.state.Held? ==>
          && (site.min > 1 <==> w.state.roll.Some?)
          && (site.min > 1 ==>
                |w.state.roll.value| == site.min
                && RollReceipted(w.receipts, w.state.scope, w.state.scopeId, w.state.roll.value)))
  }

  ghost predicate Invariant(site: Site, w: World) {
    MarkersMatch(w) && NoEscape(w) && Anchored(site, w) && HeldIsReceipted(site, w) && HeldIsWritten(site, w)
    && QuorumKept(site, w) && Keyed(w.records)
  }

  /** Rows are only ever appended while a hold stands, and the policy is left as it is. */
  lemma WrittenStays(site: Site, w: World, v: World)
    requires HeldIsWritten(site, w) && v.state == w.state && v.policy == w.policy && w.rows <= v.rows
    ensures HeldIsWritten(site, v)
  {
    if w.state.Held? && w.state.scope != GlobalScope {
      var added :| RowsWritten(site, w, added);
      assert RowsWritten(site, v, added);
    }
  }

  // ---- The ledger side ----------------------------------------------------

  /** A registration keeps the invariant if and only if it is safe, in every world that meets it. */
  lemma RegisterKeepsIff(site: Site, w: World, r: Record)
    requires Invariant(site, w)
    ensures Invariant(site, RegisterIn(w, r, true)) <==> RegisterSafe(w, r)
  {
    hide ActiveHolds, InScope, ClosedBelow, Head, Ids, RollReceipted;
    WrittenStays(site, w, RegisterIn(w, r, true));
    if w.state.Held? && w.state.scope == ChainScope {
      RegisterKeepsHoldIff(w, r, w.state.scopeId);
    } else if w.state.Held? && w.state.scope == AgentScope {
      RegisterKeepsAgentHold(w, r, w.state.scopeId);
    } else if w.state.Held? {
      NothingInGlobal(RegisterIn(w, r, true), w.state.scopeId);
    }
  }

  lemma NothingInGlobal(w: World, scopeId: Id)
    ensures Covered(w, GlobalScope, scopeId)
  {
  }

  lemma RegisterKeeps(site: Site, w: World, r: Record, verified: bool)
    requires Invariant(site, w) && (verified ==> RegisterSafe(w, r))
    ensures Invariant(site, RegisterIn(w, r, verified))
  {
    if verified {
      RegisterKeepsIff(site, w, r);
    }
  }

  // ---- The manager's side -------------------------------------------------

  lemma EmitAppends(site: Site, w: World, r: Receipt, ok: bool)
    requires Emit(site, w, r, ok).Some?
    ensures var v := Emit(site, w, r, ok).value;
            Anchored(site, v) && v.receipts == w.receipts + [r] && v == w.(receipts := v.receipts, anchor := v.anchor)
  {
  }

  lemma ReceiptsStay(receipts: seq<Receipt>, r: Receipt)
    ensures forall x :: x in receipts ==> x in receipts + [r]
  {
  }

  /** A world in which the stop may be applied: nothing held, and the quorum reached if there is one. */
  ghost predicate Ready(site: Site, w: World) {
    && MarkersMatch(w) && Anchored(site, w) && Keyed(w.records)
    && ((w.state.Idle? && site.min <= 1)
        || (w.state.Pending? && 1 < site.min == |w.state.approvers|
            && RollReceipted(w.receipts, w.state.scope, w.state.scopeId, w.state.approvers)))
  }

  /** The rows a hold writes revoke everything in its scope. */
  lemma HeldContentCovers(site: Site, w: World, scope: Scope, scopeId: Id, ids: seq<Id>)
    requires Keyed(w.records) && TargetOf(w, scope).Some? && Resolves(w, scope, scopeId, ids)
    ensures Covered(WithTarget(w, HeldContent(site, TargetOf(w, scope).value, ids)), scope, scopeId)
  {
    if scope != GlobalScope {
      var rows := w.rows + Revocations(ids);
      forall id | InScope(w.records, scope, scopeId, id)
        ensures IsRevoked(rows, id)
      {
        assert id in ids;
        var i :| 0 <= i < |ids| && ids[i] == id;
        assert rows[|w.rows| + i] == Revoked(id);
      }
    }
  }

  lemma HoldMarks(control: seq<Marker>, m: Marker)
    requires ActiveHolds(control) == [] && m.HoldMarker?
    ensures ActiveHolds(control + [m]) == [m]
  {
  }

  lemma ResumeUnmarks(control: seq<Marker>, scope: Scope, scopeId: Id)
    requires ActiveHolds(control) == [HoldMarker(scope, scopeId, true)]
    ensures ActiveHolds(control + [ResumeMarker(scope, scopeId)]) == []
  {
    assert (control + [ResumeMarker(scope, scopeId)])[..|control|] == control;
    assert [HoldMarker(scope, scopeId, true)][1..] == [];
    assert Released([HoldMarker(scope, scopeId, true)], scope, scopeId) == [];
  }

  lemma RollStays(receipts: seq<Receipt>, r: Receipt, scope: Scope, scopeId: Id, roll: seq<Id>)
    requires RollReceipted(receipts, scope, scopeId, roll)
    ensures RollReceipted(receipts + [r], scope, scopeId, roll)
  {
  }

  lemma AppliedIsWritten(site: Site, w: World, scope: Scope, scopeId: Id, reason: string, ids: seq<Id>, ok: bool)
    requires ApplyHold(site, w, scope, scopeId, reason, ids, ok).1 == HoldApplied
    ensures HeldIsWritten(site, ApplyHold(site, w, scope, scopeId, reason, ids, ok).0)
  {
    hide Head, Ids, Anchored, Resolvable;
    var v := ApplyHold(site, w, scope, scopeId, reason, ids, ok).0;
    if scope != GlobalScope {
      assert RowsWritten(site, v, Revocations(ids));
    }
  }

  lemma ApplyKeeps(site: Site, w: World, scope: Scope, scopeId: Id, reason: string, ids: seq<Id>, ok: bool)
    requires Ready(site, w) && ResolvedTo(site, w, scope, scopeId, ids)
    requires w.state.Pending? ==> w.state.scope == scope && w.state.scopeId == scopeId
    ensures var (v, outcome) := ApplyHold(site, w, scope, scopeId, reason, ids, ok);
            if outcome == HoldApplied then Invariant(site, v) else v == w
  {
    hide Resolves, ActiveHolds, InScope, RollReceipted, Head, Ids;
    var (v, outcome) := ApplyHold(site, w, scope, scopeId, reason, ids, ok);
    if outcome == HoldApplied {
      var original := TargetOf(w, scope).value;
      var held := HeldContent(site, original, ids);
      var roll := if w.state.Pending? then Some(w.state.approvers) else None;
      var receipt := HoldReceipt(scope, scopeId, reason, site.digest(original), roll);
      EmitAppends(site, WithTarget(w, held), receipt, ok);
      HeldContentCovers(site, w, scope, scopeId, ids);
      HoldMarks(w.control, HoldMarker(scope, scopeId, true));
      assert receipt in v.receipts && IsHoldReceipt(site, receipt, v.state);
      if w.state.Pending? {
        RollStays(w.receipts, receipt, scope, scopeId, w.state.approvers);
      }
      AppliedIsWritten(site, w, scope, scopeId, reason, ids, ok);
      assert NoEscape(v) by {
        assert Covered(WithTarget(w, held), scope, scopeId);
      }
    }
  }

  lemma HoldKeeps(site: Site, w: World, scope: Scope, scopeId: Id, reason: string, ids: seq<Id>, ok: bool)
    requires Invariant(site, w) && ResolvedTo(site, w, scope, scopeId, ids)
    ensures Invariant(site, Hold(site, w, scope, scopeId, reason, ids, ok).0)
  {
    hide Resolves, ActiveHolds, InScope, Emit, Head, Ids, ApplyHold;
    if w.state.Idle? {
      if site.min > 1 {
        var receipt := PendingReceipt(scope, scopeId, reason, site.min);
        if Emit(site, w, receipt, ok).Some? {
          EmitAppends(site, w, receipt, ok);
        }
      } else {
        ApplyKeeps(site, w, scope, scopeId, reason, ids, ok);
      }
    }
  }

  /** One more distinct approver extends the receipted roll. */
  lemma RollGrows(receipts: seq<Receipt>, scope: Scope, scopeId: Id, roll: seq<Id>, approver: Id)
    requires RollReceipted(receipts, scope, scopeId, roll) && approver !in roll
    ensures RollReceipted(receipts + [ApprovalReceipt(scope, scopeId, approver, roll)], scope, scopeId,
                          roll + [approver])
  {
    var receipt := ApprovalReceipt(scope, scopeId, approver, roll);
    var next := roll + [approver];
    ReceiptsStay(receipts, receipt);
    forall i | 0 <= i < |next|
      ensures ApprovalReceipt(scope, scopeId, next[i], next[..i]) in receipts + [receipt]
    {
      assert next[..i] == roll[..i];
      if i == |roll| {
        assert roll[..i] == roll;
      }
    }
  }

  lemma ApproveKeeps(site: Site, w: World, approver: Id, ids: seq<Id>, ok: bool, applyOk: bool)
    requires Invariant(site, w) && Allowed(site, w, OpApprove(approver, ids, ok, applyOk))
    ensures Invariant(site, Approve(site, w, approver, ids, ok, applyOk).0)
  {
    hide ActiveHolds, InScope, Emit, Head, Ids, ApplyHold, RollReceipted, Subtree, Keyed;
    if w.state.Pending? && approver !in w.state.approvers {
      var st := w.state;
      var receipt := ApprovalReceipt(st.scope, st.scopeId, approver, st.approvers);
      if Emit(site, w, receipt, ok).Some? {
        var v := Emit(site, w, receipt, ok).value;
        EmitAppends(site, w, receipt, ok);
        RollGrows(w.receipts, st.scope, st.scopeId, st.approvers, approver);
        RollStays(w.receipts, receipt, st.scope, st.scopeId, st.approvers);
        var next := st.(approvers := st.approvers + [approver],
                        approvalIds := st.approvalIds + [site.receiptId(receipt)]);
        if |next.approvers| >= st.min {
          ApplyKeeps(site, v.(state := next), st.scope, st.scopeId, st.reason, ids, applyOk);
        }
      }
    }
  }

  lemma AbortKeeps(site: Site, w: World, approver: Id, ok: bool)
    requires Invariant(site, w)
    ensures Invariant(site, Abort(site, w, approver, ok).0)
  {
  }

  lemma ResumeKeeps(site: Site, w: World, ok: bool)
    requires Invariant(site, w)
    ensures Invariant(site, Resume(site, w, ok).0)
  {
    hide ActiveHolds, InScope, Emit, Head, Ids, RollReceipted, Keyed, FindReceipt;
    if w.state.Held? {
      var st := w.state;
      var refused := RefusedReceipt(st.scope, st.scopeId, st.receiptId);
      if Emit(site, w, refused, ok).Some? {
        EmitAppends(site, w, refused, ok);
        WrittenStays(site, w, Emit(site, w, refused, ok).value);
        ReceiptsStay(w.receipts, refused);
        if st.roll.Some? {
          RollStays(w.receipts, refused, st.scope, st.scopeId, st.roll.value);
        }
      }
      var resumed := ResumeReceipt(st.scope, st.scopeId, st.heldDigest, st.originalDigest, st.receiptId);
      if Emit(site, w, resumed, ok).Some? {
        EmitAppends(site, w, resumed, ok);
        if st.scope != GlobalScope {
          ResumeUnmarks(w.control, st.scope, st.scopeId);
        }
      }
    }
  }

  lemma RevokeKeeps(site: Site, w: World, row: Row)
    requires Invariant(site, w)
    ensures Invariant(site, w.(rows := w.rows + [row]))
  {
    WrittenStays(site, w, w.(rows := w.rows + [row]));
  }

  lemma StepKeeps(site: Site, w: World, op: Op)
    requires Invariant(site, w) && Allowed(site, w, op)
    ensures Invariant(site, Perform(site, w, op).0)
  {
    hide Invariant, Hold, Approve, Abort, Resume, RegisterIn;
    match op
    case OpHold(scope, scopeId, reason, ids, ok) => HoldKeeps(site, w, scope, scopeId, reason, ids, ok);
    case OpApprove(approver, ids, ok, applyOk) => ApproveKeeps(site, w, approver, ids, ok, applyOk);
    case OpAbort(approver, ok) => AbortKeeps(site, w, approver, ok);
    case OpResume(ok) => ResumeKeeps(site, w, ok);
    case OpRegister(r, verified) => RegisterKeeps(site, w, r, verified);
    case OpRevoke(row) => RevokeKeeps(site, w, row);
    case OpRekey(key) => RekeyKeeps(site, w, key);
  }

  lemma RekeyKeeps(site: Site, w: World, key: string)
    requires Invariant(site, w)
    ensures Invariant(site, w.(key := key))
  {
    WrittenStays(site, w, w.(key := key));
  }

  /**
   In every interleaving the invariant holds: in particular no authority registered
   before or during an agent or chain hold escapes it, and the ledger's marker fold is
   exactly the hold in force.
   */
  lemma {:induction false} NothingEscapes(site: Site, w: World, ops: seq<Op>)
    requires Invariant(site, w) && AllAllowed(site, w, ops)
    ensures Invariant(site, Run(site, w, ops))
    decreases |ops|
  {
    hide Invariant, Perform, Allowed;
    if ops != [] {
      StepKeeps(site, w, ops[0]);
      NothingEscapes(site, Perform(site, w, ops[0]).0, ops[1..]);
    }
  }
}
