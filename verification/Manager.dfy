/** `ContainmentManager` itself: each method rewrites its files step by step and rolls back when it must. */
module Manager {
  import opened Basics
  import opened Merkle
  import opened Ledger
  import opened ReceiptStream
  import opened Containment
  import opened ContainmentRuns

  /** `tokens_for_agent`. */
  method TokensForAgent(records: Records, agent: Id) returns (ids: seq<Id>)
    ensures NoDup(ids) && forall x :: x in ids <==> x in records && records[x].agent == agent
  {
    ids := [];
    var todo := records.Keys;
    while todo != {}
      invariant todo <= records.Keys
      invariant NoDup(ids) && forall x :: x in ids <==> x in records.Keys - todo && records[x].agent == agent
      decreases todo
    {
      var x :| x in todo;
      if records[x].agent == agent {
        ids := ids + [x];
      }
      todo := todo - {x};
    }
  }

  /** Resolving the scope ends: a chain is not searched below an id that is its own ancestor. */
  ghost predicate ScopeEnds(records: Records, scope: Scope, scopeId: Id) {
    scope == ChainScope && scopeId != "" ==> !OnCycle(records, scopeId)
  }

  /** Every scope resolves to some list. */
  lemma SomeResolution(w: World, scope: Scope, scopeId: Id) returns (ids: seq<Id>)
    ensures Resolves(w, scope, scopeId, ids)
  {
    match scope
    case GlobalScope => ids := [];
    case AgentScope => ids := ListOf(set x | x in w.records && w.records[x].agent == scopeId);
    case ChainScope => ids := ListOf(Subtree(w.records, scopeId));
  }

  class ContainmentManager {
    const site: Site
    const ledger: DelegationLedger
    var policy: Option<string>
    var state: State
    var receipts: seq<Receipt>
    var anchor: Option<Anchor>
    var key: string

    /** A manager works on the files it finds. */
    constructor (site: Site, ledger: DelegationLedger, policy: Option<string>, state: State,
                 receipts: seq<Receipt>, anchor: Option<Anchor>, key: string)
      requires site.min >= 1
      ensures this.site == site && this.ledger == ledger
      ensures View() == World(policy, ledger.file.rows, ledger.records, ledger.control, state, receipts, anchor, key)
      ensures Keyed(ledger.records) && ActiveHolds(ledger.control) == [] && state == Idle && anchor == None ==>
                Invariant(site, View())
    {
      this.site, this.ledger, this.policy, this.key := site, ledger, policy, key;
      this.state, this.receipts, this.anchor := state, receipts, anchor;
    }

    ghost function View(): World
      reads this, ledger, ledger.file
    {
      World(policy, ledger.file.rows, ledger.records, ledger.control, state, receipts, anchor, key)
    }

    /** `_emit_receipt`: check the anchor, append, anchor again. */
    method EmitReceipt(r: Receipt, ok: bool) returns (done: bool)
      modifies this`receipts, this`anchor
      ensures done == Emit(site, old(View()), r, ok).Some?
      ensures View() == Emit(site, old(View()), r, ok).GetOr(old(View()))
    {
      var head := ComputeHead(site.h, Ids(site, receipts));
      if (anchor.Some? && anchor.value != head) || !ok {
        return false;
      }
      receipts := receipts + [r];
      head := ComputeHead(site.h, Ids(site, receipts));
      anchor := Some(head);
      return true;
    }

    /** The lookup of a receipt by its id, first match. */
    method LookUp(id: Bytes) returns (found: Option<Receipt>)
      ensures found == FindReceipt(site, receipts, id)
    {
      for i := 0 to |receipts|
        invariant FindReceipt(site, receipts, id) == FindReceipt(site, receipts[i..], id)
      {
        assert receipts[i..][1..] == receipts[i + 1..];
        if site.receiptId(receipts[i]) == id {
          return Some(receipts[i]);
        }
      }
      return None;
    }

    /** `_resolve_ids`: `None` when the scope is refused. */
    method ResolveIds(scope: Scope, scopeId: Id) returns (ids: Option<seq<Id>>)
      requires Keyed(ledger.records) && ScopeEnds(ledger.records, scope, scopeId)
      ensures ids.Some? <==> Resolvable(site, View(), scope, scopeId)
      ensures ids.Some? ==> Resolves(View(), scope, scopeId, ids.value)
    {
      match scope {
        case GlobalScope =>
          return Some([]);
        case AgentScope =>
          if !site.agentOk(scopeId) {
            return None;
          }
          var roots := TokensForAgent(ledger.records, scopeId);
          if roots == [] {
            return None;
          }
          assert roots[0] in roots;
          return Some(roots);
        case ChainScope =>
          if scopeId == "" || scopeId !in ledger.records {
            return None;
          }
          var below := Descendants(ledger.records, scopeId);
          return Some(below);
      }
    }

    /** Write back one enforcement file. */
    method WriteTarget(content: Content)
      modifies this`policy, ledger.file`rows
      ensures View() == WithTarget(old(View()), content)
    {
      match content
      case PolicyBytes(text) => policy := Some(text);
      case RevocationRows(rows) => ledger.file.rows := rows;
    }

    /** The bytes to snapshot, if the target exists. */
    method ReadTarget(scope: Scope) returns (content: Option<Content>)
      ensures content == TargetOf(View(), scope)
    {
      if scope != GlobalScope {
        return Some(RevocationRows(ledger.file.rows));
      }
      return if policy.Some? then Some(PolicyBytes(policy.value)) else None;
    }

    /** Rewrite the target and receipt it; a receipt that cannot be written puts the snapshot back. */
    method RewriteReceipted(snapshot: Content, held: Content, receipt: Receipt, ok: bool) returns (done: bool)
      requires WithTarget(View(), snapshot) == View() && snapshot.PolicyBytes? == held.PolicyBytes?
      modifies this`policy, this`receipts, this`anchor, ledger.file`rows
      ensures var e := Emit(site, WithTarget(old(View()), held), receipt, ok);
              done == e.Some? && View() == e.GetOr(old(View()))
    {
      hide Emit;
      WriteTarget(held);
      EmitShape(site, View(), receipt, ok);
      done := EmitReceipt(receipt, ok);
      if !done {
        WriteTarget(snapshot);
      }
    }

    /** `_apply_hold_locked`; `base` is the pending record, if any. */
    method ApplyHoldLocked(scope: Scope, scopeId: Id, reason: string, base: State, ok: bool)
      returns (outcome: Outcome, ghost ids: seq<Id>)
      requires Keyed(ledger.records) && ScopeEnds(ledger.records, scope, scopeId) && !base.Held?
      modifies this`policy, this`state, this`receipts, this`anchor, ledger`lines, ledger`control, ledger.file`rows
      ensures ResolvedTo(site, old(View()), scope, scopeId, ids)
      ensures var (v, o) := ApplyHold(site, old(View()).(state := base), scope, scopeId, reason, ids, ok);
              outcome == o && View() == if o == HoldApplied then v else old(View())
      ensures old(ledger.Synced()) ==> ledger.Synced()
    {
      hide Emit, Resolves, Resolvable, Keyed, HeldContent;
      var resolved := ResolveIds(scope, scopeId);
      ids := resolved.GetOr([]);
      ResolvableFrame(site, View(), base, scope, scopeId);
      var target := ReadTarget(scope);
      if target.None? {
        return NothingToHold, ids;
      } else if resolved.None? {
        return Malformed, ids;
      } else if base.Pending? && base.pin != "" && base.pin != key {
        return KeyChanged, ids;
      }
      var snapshot, roll := target.value, if base.Pending? then Some(base.approvers) else None;
      var held := HeldContent(site, snapshot, resolved.value);
      SameKind(site, snapshot, resolved.value);
      var receipt := HoldReceipt(scope, scopeId, reason, site.digest(snapshot), roll);
      EmitFrame(site, View(), base, held, receipt, ok);
      var done := RewriteReceipted(snapshot, held, receipt, ok);
      if !done {
        return EmissionFailed, ids;
      }
      state := Held(scope, scopeId, snapshot, site.digest(snapshot), site.digest(held), site.receiptId(receipt),
                    roll, key);
      if scope != GlobalScope {
        ledger.AppendControl(HoldMarker(scope, scopeId, true));
      }
      return HoldApplied, ids;
    }

    /** `hold`. */
    method Hold(scope: Scope, scopeId: Id, reason: string, ok: bool) returns (outcome: Outcome, ghost ids: seq<Id>)
      requires Keyed(ledger.records) && (state.Idle? && site.min <= 1 ==> ScopeEnds(ledger.records, scope, scopeId))
      modifies this`policy, this`state, this`receipts, this`anchor, ledger`lines, ledger`control, ledger.file`rows
      ensures ResolvedTo(site, old(View()), scope, scopeId, ids)
      ensures (View(), outcome) == Containment.Hold(site, old(View()), scope, scopeId, reason, ids, ok)
      ensures old(ledger.Synced()) ==> ledger.Synced()
    {
      hide Emit, ApplyHold;
      if site.min <= 1 && state.Idle? && !(scope == AgentScope && !site.agentOk(scopeId)) {
        outcome, ids := ApplyHoldLocked(scope, scopeId, reason, Idle, ok);
        ApplyOutcome(site, old(View()), scope, scopeId, reason, ids, ok);
        return;
      }
      ids := SomeResolution(View(), scope, scopeId);
      if scope == AgentScope && !site.agentOk(scopeId) {
        return Malformed, ids;
      }
      if !state.Idle? {
        return Busy, ids;
      }
      var pending := PendingReceipt(scope, scopeId, reason, site.min);
      EmitShape(site, View(), pending, ok);
      var done := EmitReceipt(pending, ok);
      if !done {
        return EmissionFailed, ids;
      }
      state := Pending(scope, scopeId, reason, site.min, [], [], site.receiptId(pending), key);
      return PendingOpened, ids;
    }

    /** `approve_hold`. */
    method ApproveHold(approver: Id, ok: bool, applyOk: bool) returns (outcome: Outcome, ghost ids: seq<Id>)
      requires Keyed(ledger.records)
      requires state.Pending? && |state.approvers| + 1 >= state.min ==>
                 ScopeEnds(ledger.records, state.scope, state.scopeId)
      modifies this`policy, this`state, this`receipts, this`anchor, ledger`lines, ledger`control, ledger.file`rows
      ensures Allowed(site, old(View()), OpApprove(approver, ids, ok, applyOk))
      ensures (View(), outcome) == Approve(site, old(View()), approver, ids, ok, applyOk)
      ensures old(ledger.Synced()) ==> ledger.Synced()
    {
      hide Emit, ApplyHold, Subtree;
      ids := [];
      if state.Pending? {
        ids := SomeResolution(View(), state.scope, state.scopeId);
      }
      if approver == "" {
        return Malformed, ids;
      } else if state.Idle? {
        return NothingPending, ids;
      } else if state.Held? {
        return Busy, ids;
      } else if approver in state.approvers {
        return AlreadyApproved, ids;
      }
      var receipt := ApprovalReceipt(state.scope, state.scopeId, approver, state.approvers);
      EmitShape(site, View(), receipt, ok);
      var done := EmitReceipt(receipt, ok);
      if !done {
        return EmissionFailed, ids;
      }
      var next := state.(approvers := state.approvers + [approver],
                         approvalIds := state.approvalIds + [site.receiptId(receipt)]);
      if |next.approvers| < next.min {
        state := next;
        return ApprovalRecorded, ids;
      }
      ghost var v := View();
      ResolvableFrame(site, v, next, next.scope, next.scopeId);
      outcome, ids := ApplyHoldLocked(next.scope, next.scopeId, next.reason, next, applyOk);
      ApplyOutcome(site, v.(state := next), next.scope, next.scopeId, next.reason, ids, applyOk);
    }

    /** `abort_hold`. */
    method AbortHold(approver: Id, ok: bool) returns (outcome: Outcome)
      modifies this`state, this`receipts, this`anchor
      ensures (View(), outcome) == Abort(site, old(View()), approver, ok)
    {
      hide Emit;
      if approver == "" {
        return Malformed;
      } else if state.Idle? {
        return NothingPending;
      } else if state.Held? {
        return AlreadyApplied;
      }
      var receipt := AbortReceipt(state.scope, state.scopeId, approver, state.pendingId);
      EmitShape(site, View(), receipt, ok);
      var done := EmitReceipt(receipt, ok);
      if !done {
        return EmissionFailed;
      }
      state := Idle;
      return HoldAborted;
    }

    /** `resume`: nothing is assumed of the state file it reads. */
    method ResumeHold(ok: bool) returns (outcome: Outcome)
      modifies this`policy, this`state, this`receipts, this`anchor, ledger`lines, ledger`control, ledger.file`rows
      ensures (View(), outcome) == Resume(site, old(View()), ok)
      ensures old(ledger.Synced()) ==> ledger.Synced()
    {
      hide Emit, FindReceipt;
      if state.Idle? {
        return NotHeld;
      } else if state.Pending? {
        return StillPending;
      } else if site.digest(state.original) != state.originalDigest {
        return DigestMismatch;
      } else if state.pin == "" {
        return Unpinned;
      } else if key != state.pin {
        return KeyChanged;
      }
      var hold := LookUp(state.receiptId);
      if hold.None? {
        return ReceiptMissing;
      }
      if SnapshotOf(hold.value) != state.originalDigest || hold.value.scope != state.scope {
        var refused := EmitReceipt(RefusedReceipt(state.scope, state.scopeId, state.receiptId), ok);
        return if refused then ResumeRefused else EmissionFailed;
      }
      var receipt := ResumeReceipt(state.scope, state.scopeId, state.heldDigest, state.originalDigest, state.receiptId);
      EmitShape(site, View(), receipt, ok);
      var done := EmitReceipt(receipt, ok);
      if !done {
        return EmissionFailed;
      }
      WriteTarget(state.original);
      if state.scope != GlobalScope {
        ledger.AppendControl(ResumeMarker(state.scope, state.scopeId));
      }
      state := Idle;
      return HoldResumed;
    }
  }

  // ---- Whole runs on the objects ------------------------------------------

  /** The operation a call turns out to be, once it is known what its scope resolves to. */
  function WithIds(call: Op, ids: seq<Id>): Op {
    match call
    case OpHold(scope, scopeId, reason, _, ok) => OpHold(scope, scopeId, reason, ids, ok)
    case OpApprove(approver, _, ok, applyOk) => OpApprove(approver, ids, ok, applyOk)
    case _ => call
  }

  /** The call ends, and a registration is safe. */
  ghost predicate Fits(site: Site, w: World, call: Op) {
    match call
    case OpHold(scope, scopeId, _, _, _) => w.state.Idle? && site.min <= 1 ==> ScopeEnds(w.records, scope, scopeId)
    case OpApprove(_, _, _, _) =>
      w.state.Pending? && |w.state.approvers| + 1 >= w.state.min ==>
        ScopeEnds(w.records, w.state.scope, w.state.scopeId)
    case OpRegister(r, verified) => verified ==> RegisterSafe(w, r)
    case _ => true
  }

  /** Every call fits when its turn comes. */
  ghost predicate AllFit(site: Site, w: World, calls: seq<Op>)
    decreases |calls|
  {
    calls != [] ==>
      && Fits(site, w, calls[0])
      && forall ids :: Allowed(site, w, WithIds(calls[0], ids)) ==>
           AllFit(site, Perform(site, w, WithIds(calls[0], ids)).0, calls[1..])
  }

  /** One call, on whichever object it concerns. */
  method Step(m: ContainmentManager, call: Op) returns (outcome: Outcome, ghost ids: seq<Id>)
    requires Invariant(m.site, m.View()) && Fits(m.site, m.View(), call)
    modifies m, m.ledger, m.ledger.file
    ensures Allowed(m.site, old(m.View()), WithIds(call, ids))
    ensures (m.View(), outcome) == Perform(m.site, old(m.View()), WithIds(call, ids))
    ensures Invariant(m.site, m.View())
    ensures old(m.ledger.Synced()) ==> m.ledger.Synced()
  {
    ghost var w := m.View();
    InvariantKeyed(m.site, w);
    hide Invariant, Hold, Approve, Abort, Resume, RegisterIn, ResolvedTo, RegisterSafe, ScopeEnds;
    ids := [];
    match call {
      case OpHold(scope, scopeId, reason, _, ok) => outcome, ids := m.Hold(scope, scopeId, reason, ok);
      case OpApprove(approver, _, ok, applyOk) => outcome, ids := m.ApproveHold(approver, ok, applyOk);
      case OpAbort(approver, ok) => outcome := m.AbortHold(approver, ok);
      case OpResume(ok) => outcome := m.ResumeHold(ok);
      case OpRegister(r, verified) =>
        var done := m.ledger.Register(r, verified);
        RegisterView(w, r, verified);
        outcome := Elsewhere;
      case OpRevoke(row) =>
        m.ledger.file.rows := m.ledger.file.rows + [row];
        outcome := Elsewhere;
      case OpRekey(key) =>
        m.key := key;
        outcome := Elsewhere;
    }
    StepKeeps(m.site, w, WithIds(call, ids));
  }

  lemma InvariantKeyed(site: Site, w: World)
    requires Invariant(site, w)
    ensures Keyed(w.records)
  {
  }

  lemma RegisterView(w: World, r: Record, verified: bool)
    ensures var rows := RowsAfterRegister(w.records, w.control, w.rows, r);
            RegisterIn(w, r, verified) ==
            if verified && rows.Some? then w.(records := w.records[r.token.id := r], rows := rows.value) else w
  {
  }

  /**
   Whatever is called in whatever order on the manager, the ledger and their files, the
   objects go through a run of the state machine, and nothing escapes.
   */
  method Drive(m: ContainmentManager, calls: seq<Op>) returns (ghost ops: seq<Op>)
    requires Invariant(m.site, m.View()) && AllFit(m.site, m.View(), calls)
    modifies m, m.ledger, m.ledger.file
    ensures AllAllowed(m.site, old(m.View()), ops) && m.View() == Run(m.site, old(m.View()), ops)
    ensures |ops| == |calls| && Invariant(m.site, m.View())
    ensures old(m.ledger.Synced()) ==> m.ledger.Synced()
    decreases |calls|
  {
    hide Invariant, Perform, Fits, Allowed;
    if calls == [] {
      return [];
    }
    var outcome, ids := Step(m, calls[0]);
    ghost var op := WithIds(calls[0], ids);
    ghost var rest := Drive(m, calls[1..]);
    ops := [op] + rest;
    assert ops[1..] == rest;
  }

  lemma EmitShape(site: Site, w: World, r: Receipt, ok: bool)
    ensures var e := Emit(site, w, r, ok);
            e.Some? ==> e.value == w.(receipts := e.value.receipts, anchor := e.value.anchor)
  {
  }

  lemma ResolvableFrame(site: Site, w: World, base: State, scope: Scope, scopeId: Id)
    ensures Resolvable(site, w.(state := base), scope, scopeId) == Resolvable(site, w, scope, scopeId)
  {
  }

  lemma SameKind(site: Site, content: Content, ids: seq<Id>)
    ensures HeldContent(site, content, ids).PolicyBytes? == content.PolicyBytes?
  {
  }

  /** Emission looks at the receipts and the anchor only. */
  lemma EmitFrame(site: Site, w: World, base: State, held: Content, r: Receipt, ok: bool)
    ensures var e, f := Emit(site, WithTarget(w, held), r, ok), Emit(site, WithTarget(w.(state := base), held), r, ok);
            && e.Some? == f.Some?
            && (e.Some? ==>
                  && e.value == WithTarget(w, held).(receipts := e.value.receipts, anchor := e.value.anchor)
                  && f.value == e.value.(state := base))
  {
  }

  lemma ApplyOutcome(site: Site, w: World, scope: Scope, scopeId: Id, reason: string, ids: seq<Id>, ok: bool)
    ensures var (v, outcome) := ApplyHold(site, w, scope, scopeId, reason, ids, ok);
            outcome != HoldApplied ==> v == w
  {
  }
}
