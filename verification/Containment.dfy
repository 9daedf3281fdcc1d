/**
 Emergency holds (`ContainmentManager` in `raucle/containment.py`) over the policy file,
 the revocations file and the delegation ledger. Each operation is one atomic step;
 `ok` says whether the environment lets the step's receipt be written.
 */
module Containment {
  import opened Basics
  import opened Merkle
  import opened Ledger
  import opened ReceiptStream

  /** The bytes of the file a hold rewrites. An absent revocations file reads as empty. */
  datatype Content = PolicyBytes(text: string) | RevocationRows(rows: seq<Row>)

  datatype Receipt =
    | PendingReceipt(scope: Scope, scopeId: Id, reason: string, min: nat)
    | ApprovalReceipt(scope: Scope, scopeId: Id, approver: Id, earlier: seq<Id>)
    | AbortReceipt(scope: Scope, scopeId: Id, approver: Id, pendingId: Bytes)
    | HoldReceipt(scope: Scope, scopeId: Id, reason: string, before: Bytes, roll: Option<seq<Id>>)
    | ResumeReceipt(scope: Scope, scopeId: Id, before: Bytes, restored: Bytes, holdId: Bytes)
    | RefusedReceipt(scope: Scope, scopeId: Id, holdId: Bytes)

  datatype State =
    | Idle
    | Pending(scope: Scope, scopeId: Id, reason: string, min: nat, approvers: seq<Id>, approvalIds: seq<Bytes>,
              pendingId: Bytes, pin: string)
    | Held(scope: Scope, scopeId: Id, original: Content, originalDigest: Bytes, heldDigest: Bytes,
           receiptId: Bytes, roll: Option<seq<Id>>, pin: string)

  datatype World = World(
    policy: Option<string>, rows: seq<Row>, records: Records, control: seq<Marker>,
    state: State, receipts: seq<Receipt>, anchor: Option<Anchor>, key: string)

  /** Digests, the deny-all rewrite, the agent-id grammar and the configured quorum. */
  datatype Site = Site(
    digest: Content -> Bytes, receiptId: Receipt -> Bytes, h: Hash, denyAll: string -> string,
    agentOk: Id -> bool, min: nat)

  datatype Outcome =
    | HoldApplied | PendingOpened | ApprovalRecorded | HoldAborted | HoldResumed | ResumeRefused
    | Busy | Malformed | NothingToHold | KeyChanged | EmissionFailed
    | NothingPending | AlreadyApproved | AlreadyApplied | NotHeld | StillPending
    | DigestMismatch | Unpinned | ReceiptMissing
    | Elsewhere

  // ---- Receipts -----------------------------------------------------------

  function Ids(site: Site, receipts: seq<Receipt>): (r: seq<Bytes>)
    ensures |r| == |receipts| && forall i :: 0 <= i < |r| ==> r[i] == site.receiptId(receipts[i])
  {
    seq(|receipts|, i requires 0 <= i < |receipts| => site.receiptId(receipts[i]))
  }

  /** The anchor, when there is one, matches the stream. */
  predicate Anchored(site: Site, w: World) {
    w.anchor.Some? ==> w.anchor.value == Anchor(|w.receipts|, Head(site.h, Ids(site, w.receipts)))
  }

  /** `_emit_receipt`: refuse onto a rewritten stream, else append and re-anchor. */
  function Emit(site: Site, w: World, r: Receipt, ok: bool): Option<World> {
    if !ok || !Anchored(site, w) then None
    else
      var receipts := w.receipts + [r];
      Some(w.(receipts := receipts, anchor := Some(Anchor(|receipts|, Head(site.h, Ids(site, receipts))))))
  }

  /** The first receipt of the stream with an id. */
  function FindReceipt(site: Site, receipts: seq<Receipt>, id: Bytes): Option<Receipt> {
    if receipts == [] then None
    else if site.receiptId(receipts[0]) == id then Some(receipts[0])
    else FindReceipt(site, receipts[1..], id)
  }

  /** The claim set's `sha256_before`; other receipts carry none. */
  function SnapshotOf(r: Receipt): Bytes {
    match r
    case HoldReceipt(_, _, _, before, _) => before
    case ResumeReceipt(_, _, before, _, _) => before
    case _ => []
  }

  // ---- Targets ------------------------------------------------------------

  /** The bytes a hold of this scope would rewrite; a missing policy file has none. */
  function TargetOf(w: World, scope: Scope): Option<Content> {
    if scope == GlobalScope
    then (if w.policy.Some? then Some(PolicyBytes(w.policy.value)) else None)
    else Some(RevocationRows(w.rows))
  }

  function WithTarget(w: World, content: Content): World {
    match content
    case PolicyBytes(text) => w.(policy := Some(text))
    case RevocationRows(rows) => w.(rows := rows)
  }

  function Revocations(ids: seq<Id>): (r: seq<Row>)
    ensures |r| == |ids| && forall i :: 0 <= i < |r| ==> r[i] == Revoked(ids[i])
  {
    seq(|ids|, i requires 0 <= i < |ids| => Revoked(ids[i]))
  }

  /** What a hold writes: a deny-all policy, or the resolved ids appended. */
  function HeldContent(site: Site, original: Content, ids: seq<Id>): Content {
    match original
    case PolicyBytes(text) => PolicyBytes(site.denyAll(text))
    case RevocationRows(rows) => RevocationRows(rows + Revocations(ids))
  }

  /** The records a hold of this scope covers. */
  ghost predicate InScope(records: Records, scope: Scope, scopeId: Id, id: Id) {
    id in records &&
    match scope
    case GlobalScope => false
    case AgentScope => records[id].agent == scopeId
    case ChainScope => scopeId in ChainIds(records, records[id].token)
  }

  /** `_resolve_ids` accepts the scope. */
  predicate Resolvable(site: Site, w: World, scope: Scope, scopeId: Id) {
    match scope
    case GlobalScope => true
    case AgentScope => site.agentOk(scopeId) && exists id :: id in w.records && w.records[id].agent == scopeId
    case ChainScope => scopeId != "" && scopeId in w.records
  }

  /** `ids` lists exactly what the hold resolves to. */
  ghost predicate Resolves(w: World, scope: Scope, scopeId: Id, ids: seq<Id>) {
    match scope
    case GlobalScope => ids == []
    case AgentScope => forall x :: x in ids <==> x in w.records && w.records[x].agent == scopeId
    case ChainScope => forall x :: x in ids <==> x in Subtree(w.records, scopeId)
  }

  // ---- Operations ---------------------------------------------------------

  /** `_apply_hold_locked`; `ids` is the resolved target list. */
  function ApplyHold(site: Site, w: World, scope: Scope, scopeId: Id, reason: string, ids: seq<Id>, ok: bool)
    : (World, Outcome)
  {
    var pending := if w.state.Pending? then Some(w.state.approvers) else None;
    if TargetOf(w, scope).None? then (w, NothingToHold)
    else if !Resolvable(site, w, scope, scopeId) then (w, Malformed)
    else if w.state.Pending? && w.state.pin != "" && w.state.pin != w.key then (w, KeyChanged)
    else
      var original := TargetOf(w, scope).value;
      var held := HeldContent(site, original, ids);
      var receipt := HoldReceipt(scope, scopeId, reason, site.digest(original), pending);
      match Emit(site, WithTarget(w, held), receipt, ok)
      case None => (w, EmissionFailed)
      case Some(v) =>
        (v.(state := Held(scope, scopeId, original, site.digest(original), site.digest(held),
                          site.receiptId(receipt), pending, w.key),
            control := if scope == GlobalScope then w.control
                       else w.control + [HoldMarker(scope, scopeId, true)]),
         HoldApplied)
  }

  /** `hold`: with a quorum above one only a receipted pending state is opened. */
  function Hold(site: Site, w: World, scope: Scope, scopeId: Id, reason: string, ids: seq<Id>, ok: bool)
    : (World, Outcome)
  {
    if scope == AgentScope && !site.agentOk(scopeId) then (w, Malformed)
    else if w.state != Idle then (w, Busy)
    else if site.min > 1 then
      match Emit(site, w, PendingReceipt(scope, scopeId, reason, site.min), ok)
      case None => (w, EmissionFailed)
      case Some(v) =>
        (v.(state := Pending(scope, scopeId, reason, site.min, [], [],
                             site.receiptId(PendingReceipt(scope, scopeId, reason, site.min)), w.key)),
         PendingOpened)
    else ApplyHold(site, w, scope, scopeId, reason, ids, ok)
  }

  /** `approve_hold`: one fresh approver, receipted; the quorum-completing one applies the stop. */
  function Approve(site: Site, w: World, approver: Id, ids: seq<Id>, ok: bool, applyOk: bool): (World, Outcome) {
    if approver == "" then (w, Malformed)
    else if w.state.Idle? then (w, NothingPending)
    else if w.state.Held? then (w, Busy)
    else if approver in w.state.approvers then (w, AlreadyApproved)
    else
      var st := w.state;
      var receipt := ApprovalReceipt(st.scope, st.scopeId, approver, st.approvers);
      match Emit(site, w, receipt, ok)
      case None => (w, EmissionFailed)
      case Some(v) =>
        var next := st.(approvers := st.approvers + [approver],
                        approvalIds := st.approvalIds + [site.receiptId(receipt)]);
        if |next.approvers| < st.min then (v.(state := next), ApprovalRecorded)
        else
          var (u, outcome) := ApplyHold(site, v.(state := next), st.scope, st.scopeId, st.reason, ids, applyOk);
          // A failed apply never wrote the state file: the earlier pending record remains.
          (if outcome == HoldApplied then u else u.(state := st), outcome)
  }

  /** `abort_hold`. */
  function Abort(site: Site, w: World, approver: Id, ok: bool): (World, Outcome) {
    if approver == "" then (w, Malformed)
    else if w.state.Idle? then (w, NothingPending)
    else if w.state.Held? then (w, AlreadyApplied)
    else
      match Emit(site, w, AbortReceipt(w.state.scope, w.state.scopeId, approver, w.state.pendingId), ok)
      case None => (w, EmissionFailed)
      case Some(v) => (v.(state := Idle), HoldAborted)
  }

  /** `resume`: every check, then the receipt, then the restore. */
  function Resume(site: Site, w: World, ok: bool): (World, Outcome) {
    if w.state.Idle? then (w, NotHeld)
    else if w.state.Pending? then (w, StillPending)
    else
      var st := w.state;
      if site.digest(st.original) != st.originalDigest then (w, DigestMismatch)
      else if st.pin == "" then (w, Unpinned)
      else if w.key != st.pin then (w, KeyChanged)
      else if FindReceipt(site, w.receipts, st.receiptId).None? then (w, ReceiptMissing)
      else
        var hold := FindReceipt(site, w.receipts, st.receiptId).value;
        if SnapshotOf(hold) != st.originalDigest || hold.scope != st.scope then
          match Emit(site, w, RefusedReceipt(st.scope, st.scopeId, st.receiptId), ok)
          case None => (w, EmissionFailed)
          case Some(v) => (v, ResumeRefused)
        else
          match Emit(site, w, ResumeReceipt(st.scope, st.scopeId, st.heldDigest, st.originalDigest, st.receiptId), ok)
          case None => (w, EmissionFailed)
          case Some(v) =>
            (WithTarget(v, st.original).(
               state := Idle,
               control := if st.scope == GlobalScope then w.control
                          else w.control + [ResumeMarker(st.scope, st.scopeId)]),
             HoldResumed)
  }

  /** Registering a record in the ledger while the manager may hold something. */
  function RegisterIn(w: World, r: Record, verified: bool): World {
    var rows := RowsAfterRegister(w.records, w.control, w.rows, r);
    if !verified || rows.None? then w
    else w.(records := w.records[r.token.id := r], rows := rows.value)
  }
}
