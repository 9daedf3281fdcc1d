/** The delegation ledger (`DelegationLedger` in `raucle/capability.py`). */
module Ledger {
  import opened Basics

  type Id = string

  /** The chain link of a signed token. */
  datatype Token = Token(id: Id, parent: Option<Id>)

  datatype Record = Record(token: Token, agent: Id)

  datatype Scope = GlobalScope | AgentScope | ChainScope

  /** A containment control row: a hold in force (with or without a revocations file), or its end. */
  datatype Marker = HoldMarker(scope: Scope, scopeId: Id, surface: bool) | ResumeMarker(scope: Scope, scopeId: Id)

  type Records = map<Id, Record>

  /** A revocation of one token, or any other line of the revocations file. */
  datatype Row = Revoked(id: Id) | OtherRow(text: string)

  predicate IsRevoked(rows: seq<Row>, id: Id) {
    Revoked(id) in rows
  }

  /** `parent_id` when it is truthy. */
  function Up(t: Token): Option<Id> {
    if t.parent == Some("") then None else t.parent
  }

  /** The next id upwards from a registered id. */
  function UpFrom(records: Records, id: Id): Option<Id> {
    if id in records then Up(records[id].token) else None
  }

  // ---- The chain above a token --------------------------------------------

  /** Every id some record names as its parent. */
  ghost function Linked(records: Records): set<Id> {
    set id | id in records && UpFrom(records, id).Some? :: UpFrom(records, id).value
  }

  /** The ids collected upwards from `current`, stopping at the first repeat. */
  function ChainFrom(records: Records, ghost universe: set<Id>, current: Option<Id>, seen: set<Id>): set<Id>
    requires Linked(records) <= universe && (current.Some? ==> current.value in universe)
    decreases universe - seen
  {
    if current.None? || current.value in seen then seen
    else
      var up := UpFrom(records, current.value);
      assert up.Some? ==> up.value in Linked(records);
      ChainFrom(records, universe, up, seen + {current.value})
  }

  ghost function Universe(records: Records, t: Token): set<Id> {
    Linked(records) + if Up(t).Some? then {Up(t).value} else {}
  }

  /** `_chain_ids`: the token and everything above it, also when links form a cycle. */
  function ChainIds(records: Records, t: Token): set<Id> {
    ChainFrom(records, Universe(records, t), Up(t), {t.id})
  }

  /** The walk itself; it ends on every ledger because each step adds a new id. */
  method ChainIdsLoop(records: Records, t: Token) returns (ids: set<Id>)
    ensures ids == ChainIds(records, t)
  {
    ids := {t.id};
    var current := Up(t);
    ghost var universe := Universe(records, t);
    while current.Some? && current.value !in ids
      invariant current.Some? ==> current.value in universe
      invariant ChainFrom(records, universe, current, ids) == ChainIds(records, t)
      decreases universe - ids
    {
      ids := ids + {current.value};
      var up := UpFrom(records, current.value);
      assert up.Some? ==> up.value in Linked(records);
      current := up;
    }
  }

  /** The id `k` parent links above `id`. */
  function Ascend(records: Records, id: Id, k: nat): Option<Id> {
    if k == 0 then Some(id)
    else
      match Ascend(records, id, k - 1)
      case None => None
      case Some(x) => UpFrom(records, x)
  }

  /** `s` is `id` or one of its ancestors. */
  ghost predicate Above(records: Records, id: Id, s: Id) {
    exists k: nat :: Ascend(records, id, k) == Some(s)
  }

  /** Records are stored under their own token id. */
  ghost predicate Keyed(records: Records) {
    forall id :: id in records ==> records[id].token.id == id
  }

  lemma {:induction false} AscendFromParent(records: Records, id: Id, k: nat)
    ensures Ascend(records, id, k + 1) ==
            if UpFrom(records, id).Some? then Ascend(records, UpFrom(records, id).value, k) else None
  {
    if k > 0 {
      AscendFromParent(records, id, k - 1);
    } else {
      assert Ascend(records, id, 0) == Some(id);
    }
  }

  /** Above an id is the id itself, or something above its parent. */
  lemma AboveStep(records: Records, id: Id, s: Id)
    ensures Above(records, id, s) <==>
            id == s || (UpFrom(records, id).Some? && Above(records, UpFrom(records, id).value, s))
  {
    assert Ascend(records, id, 0) == Some(id);
    if k: nat :| Ascend(records, id, k) == Some(s) {
      if k > 0 {
        AscendFromParent(records, id, k - 1);
      }
    }
    if UpFrom(records, id).Some? {
      if k: nat :| Ascend(records, UpFrom(records, id).value, k) == Some(s) {
        AscendFromParent(records, id, k);
        assert Ascend(records, id, k + 1) == Some(s);
      }
    }
  }

  /** The id one link further up is above too. */
  lemma AboveExtends(records: Records, id: Id, s: Id)
    requires Above(records, id, s) && UpFrom(records, s).Some?
    ensures Above(records, id, UpFrom(records, s).value)
  {
    var k: nat :| Ascend(records, id, k) == Some(s);
    assert Ascend(records, id, k + 1) == UpFrom(records, s);
  }

  ghost predicate ClosedUp(records: Records, ids: set<Id>) {
    forall x :: x in ids && UpFrom(records, x).Some? ==> UpFrom(records, x).value in ids
  }

  lemma {:induction false} ClosedHoldsAscent(records: Records, ids: set<Id>, id: Id, k: nat)
    requires ClosedUp(records, ids) && id in ids
    ensures Ascend(records, id, k).Some? ==> Ascend(records, id, k).value in ids
  {
    if k > 0 {
      ClosedHoldsAscent(records, ids, id, k - 1);
    }
  }

  /** The walk collects ids above `root` until nothing leads out of the set; `next` may relink `root` itself. */
  lemma {:induction false} ChainFromCloses(records: Records, next: Records, universe: set<Id>, root: Id,
                                           current: Option<Id>, seen: set<Id>)
    requires Linked(records) <= universe && (current.Some? ==> current.value in universe)
    requires root in seen && forall x :: x != root ==> UpFrom(records, x) == UpFrom(next, x)
    requires forall x :: x in seen && UpFrom(next, x).Some? ==>
               UpFrom(next, x).value in seen || UpFrom(next, x) == current
    requires forall x :: x in seen ==> Above(next, root, x)
    requires current.Some? ==> Above(next, root, current.value)
    ensures var ids := ChainFrom(records, universe, current, seen);
            root in ids && ClosedUp(next, ids) && forall x :: x in ids ==> Above(next, root, x)
    decreases universe - seen
  {
    if current.Some? && current.value !in seen {
      var up := UpFrom(records, current.value);
      assert up.Some? ==> up.value in Linked(records);
      if up.Some? {
        AboveExtends(next, root, current.value);
      }
      ChainFromCloses(records, next, universe, root, up, seen + {current.value});
    }
  }

  /** What the ledger checks of a token before storing it is what will be above it once stored, on every ledger. */
  lemma ChainIdsAreAbove(records: Records, r: Record, s: Id)
    ensures s in ChainIds(records, r.token) <==> Above(records[r.token.id := r], r.token.id, s)
  {
    var next, root := records[r.token.id := r], r.token.id;
    var ids := ChainIds(records, r.token);
    assert Ascend(next, root, 0) == Some(root);
    AboveStep(next, root, root);
    if Up(r.token).Some? {
      AboveExtends(next, root, root);
    }
    ChainFromCloses(records, next, Universe(records, r.token), root, Up(r.token), {root});
    if k: nat :| Ascend(next, root, k) == Some(s) {
      ClosedHoldsAscent(next, ids, root, k);
    }
  }

  /** The chain of a stored record is exactly itself and its ancestors, cycles included. */
  lemma ChainIdsAreAncestors(records: Records, id: Id)
    requires Keyed(records) && id in records
    ensures forall s :: s in ChainIds(records, records[id].token) <==> Above(records, id, s)
  {
    assert records[id := records[id]] == records;
    forall s
      ensures s in ChainIds(records, records[id].token) <==> Above(records, id, s)
    {
      ChainIdsAreAbove(records, records[id], s);
    }
  }

  // ---- Downwards ----------------------------------------------------------

  /** The subtree under `s`: `s` itself and every record with `s` in its chain. */
  ghost function Subtree(records: Records, s: Id): set<Id> {
    {s} + set x | x in records && s in ChainIds(records, records[x].token)
  }

  ghost predicate ChildrenOk(records: Records, children: map<Id, seq<Id>>, done: set<Id>) {
    && (forall p :: p in children ==> NoDup(children[p]))
    && (forall p, c :: p in children && c in children[p] ==> c in done && c in records && UpFrom(records, c) == Some(p))
    && (forall c :: c in done && c in records && UpFrom(records, c).Some? ==>
          UpFrom(records, c).value in children && c in children[UpFrom(records, c).value])
  }

  method ChildrenOf(records: Records) returns (children: map<Id, seq<Id>>)
    ensures ChildrenOk(records, children, records.Keys)
  {
    children := map[];
    var todo := records.Keys;
    while todo != {}
      invariant todo <= records.Keys
      invariant ChildrenOk(records, children, records.Keys - todo)
      decreases todo
    {
      var c :| c in todo;
      var up := UpFrom(records, c);
      if up.Some? {
        var siblings := if up.value in children then children[up.value] else [];
        assert c !in siblings;
        children := children[up.value := siblings + [c]];
      }
      todo := todo - {c};
    }
  }

  /** The id is its own ancestor. */
  ghost predicate OnCycle(records: Records, s: Id) {
    UpFrom(records, s).Some? && Above(records, UpFrom(records, s).value, s)
  }

  /** Told from the chain of its parent. */
  lemma OnCycleIff(records: Records, s: Id)
    requires Keyed(records)
    ensures OnCycle(records, s) <==>
            && UpFrom(records, s).Some? && UpFrom(records, s).value in records
            && s in ChainIds(records, records[UpFrom(records, s).value].token)
  {
    if UpFrom(records, s).Some? {
      var up := UpFrom(records, s).value;
      AboveStep(records, up, s);
      if up in records {
        ChainIdsAreAncestors(records, up);
      }
    }
  }

  /** Ids found so far: `s`, or a record below `s`. */
  ghost predicate FoundBelow(records: Records, s: Id, out: seq<Id>, queue: seq<Id>) {
    && NoDup(out) && NoDup(queue)
    && s in out && (forall x :: x in queue ==> x in out)
    && (forall x :: x in out ==> Above(records, x, s) && (x == s || x in records))
  }

  /** Every found id but `s` came from a finished parent, and every finished id gave up its children. */
  ghost predicate FoundLinks(records: Records, s: Id, out: seq<Id>, queue: seq<Id>) {
    && (forall x :: x in out && x != s ==>
          UpFrom(records, x).Some? && UpFrom(records, x).value in out && UpFrom(records, x).value !in queue)
    && (forall c :: c in records && UpFrom(records, c).Some? && UpFrom(records, c).value in out ==>
          UpFrom(records, c).value in queue || c in out)
  }

  ghost predicate FoundOk(records: Records, s: Id, out: seq<Id>, queue: seq<Id>) {
    FoundBelow(records, s, out, queue) && FoundLinks(records, s, out, queue)
  }

  lemma {:induction false} FoundIsSubtree(records: Records, s: Id, out: seq<Id>, x: Id, k: nat)
    requires FoundOk(records, s, out, []) && Ascend(records, x, k) == Some(s)
    ensures x in out
    decreases k
  {
    hide Above, NoDup;
    if k > 0 {
      AscendFromParent(records, x, k - 1);
      FoundIsSubtree(records, s, out, UpFrom(records, x).value, k - 1);
    }
  }

  /** The ids whose parent is `current`, once each. */
  ghost predicate KidsOf(records: Records, current: Id, kids: seq<Id>) {
    NoDup(kids) && forall c :: c in kids <==> c in records && UpFrom(records, c) == Some(current)
  }

  /** Unless the start is its own ancestor, children of a queued id have not been found before. */
  lemma KidsAreNew(records: Records, s: Id, out: seq<Id>, queue: seq<Id>, kids: seq<Id>)
    requires !OnCycle(records, s) && queue != [] && FoundOk(records, s, out, queue)
    requires KidsOf(records, queue[|queue| - 1], kids)
    ensures forall c :: c in kids ==> c !in out && c in records && Above(records, c, s)
  {
    var current := queue[|queue| - 1];
    assert current in queue;
    forall c | c in kids
      ensures c !in out && Above(records, c, s)
    {
      AboveStep(records, c, s);
    }
  }

  lemma InitMembers(queue: seq<Id>)
    requires queue != [] && NoDup(queue)
    ensures forall x :: x in queue[..|queue| - 1] <==> x in queue && x != queue[|queue| - 1]
  {
  }

  lemma LinksStep(records: Records, s: Id, out: seq<Id>, queue: seq<Id>, kids: seq<Id>)
    requires queue != [] && NoDup(queue) && FoundLinks(records, s, out, queue)
    requires forall x :: x in queue ==> x in out
    requires KidsOf(records, queue[|queue| - 1], kids)
    requires forall c :: c in kids ==> c !in out
    ensures FoundLinks(records, s, out + kids, queue[..|queue| - 1] + kids)
  {
  }

  /** Queueing the children of a popped id keeps the search sound and free of repeats. */
  lemma FoundStep(records: Records, s: Id, out: seq<Id>, queue: seq<Id>, kids: seq<Id>)
    requires !OnCycle(records, s) && queue != [] && FoundOk(records, s, out, queue)
    requires KidsOf(records, queue[|queue| - 1], kids)
    ensures FoundOk(records, s, out + kids, queue[..|queue| - 1] + kids)
  {
    KidsAreNew(records, s, out, queue, kids);
    LinksStep(records, s, out, queue, kids);
    assert NoDup(kids) && NoDup(out) && NoDup(queue);
    hide FoundLinks, OnCycle, Above, KidsOf;
    var init := queue[..|queue| - 1];
    InitMembers(queue);
    NoDupConcat(out, kids);
    InitAway(queue, init, out, kids);
    NoDupConcat(init, kids);
    hide NoDup;
  }

  lemma InitAway(queue: seq<Id>, init: seq<Id>, out: seq<Id>, kids: seq<Id>)
    requires queue != [] && init == queue[..|queue| - 1] && NoDup(queue)
    requires (forall x :: x in queue ==> x in out) && forall c :: c in kids ==> c !in out
    ensures NoDup(init) && forall i :: 0 <= i < |init| ==> init[i] !in kids
  {
    assert forall i :: 0 <= i < |init| ==> init[i] in queue;
  }

  lemma FoundBound(records: Records, s: Id, out: seq<Id>, queue: seq<Id>)
    requires FoundOk(records, s, out, queue)
    ensures |out| <= |records.Keys + {s}|
  {
    NoDupBound(out, records.Keys + {s});
  }

  lemma SearchDone(records: Records, s: Id, out: seq<Id>)
    requires Keyed(records) && FoundOk(records, s, out, [])
    ensures NoDup(out)
    ensures forall x :: x in out <==> x in Subtree(records, s)
  {
    forall x
      ensures x in out <==> x in Subtree(records, s)
    {
      if x in records {
        ChainIdsAreAncestors(records, x);
        if Above(records, x, s) {
          var k: nat :| Ascend(records, x, k) == Some(s);
          FoundIsSubtree(records, s, out, x, k);
        }
      }
    }
  }

  function KidsIn(children: map<Id, seq<Id>>, current: Id): seq<Id> {
    if current in children then children[current] else []
  }

  lemma KidsFound(records: Records, children: map<Id, seq<Id>>, current: Id)
    requires ChildrenOk(records, children, records.Keys)
    ensures KidsOf(records, current, KidsIn(children, current))
  {
  }

  lemma SearchStart(records: Records, s: Id)
    ensures FoundOk(records, s, [s], [s])
  {
    assert Ascend(records, s, 0) == Some(s);
  }

  /** One turn of the search: pop the last id, queue its children. */
  function NextQueue(children: map<Id, seq<Id>>, queue: seq<Id>): seq<Id>
    requires queue != []
  {
    queue[..|queue| - 1] + KidsIn(children, queue[|queue| - 1])
  }

  /** The queue after `n` turns of the search, if it has not ended before. */
  ghost function QueueAfter(children: map<Id, seq<Id>>, queue: seq<Id>, n: nat): Option<seq<Id>> {
    if n == 0 then Some(queue)
    else
      match QueueAfter(children, queue, n - 1)
      case None => None
      case Some(q) => if q == [] then None else Some(NextQueue(children, q))
  }

  lemma QueueStep(children: map<Id, seq<Id>>, s: Id, n: nat, queue: seq<Id>)
    ensures QueueAfter(children, [s], 0) == Some([s])
    ensures QueueAfter(children, [s], n) == Some(queue) && queue != [] ==>
              QueueAfter(children, [s], n + 1) == Some(queue[..|queue| - 1] + KidsIn(children, queue[|queue| - 1]))
  {
  }

  /** The inner loop: every child is found and queued. */
  method QueueEach(out: seq<Id>, queue: seq<Id>, kids: seq<Id>) returns (found: seq<Id>, waiting: seq<Id>)
    ensures found == out + kids && waiting == queue + kids
  {
    found, waiting := out, queue;
    for j := 0 to |kids|
      invariant found == out + kids[..j] && waiting == queue + kids[..j]
    {
      assert kids[..j + 1] == kids[..j] + [kids[j]];
      found := found + [kids[j]];
      waiting := waiting + [kids[j]];
    }
    assert kids[..|kids|] == kids;
  }

  /**
   `descendants`: a depth-first walk down the child links. Unless the start is its own
   ancestor it ends, repeats no id, and finds exactly the ids whose upward chain reaches the start.
   */
  method Descendants(records: Records, s: Id) returns (out: seq<Id>)
    requires Keyed(records) && !OnCycle(records, s)
    ensures NoDup(out) && out != [] && out[0] == s
    ensures forall x :: x in out <==> x in Subtree(records, s)
    ensures exists children, n ::
              ChildrenOk(records, children, records.Keys) && QueueAfter(children, [s], n) == Some([])
  {
    hide *;
    var children := ChildrenOf(records);
    out := [s];
    var queue := [s];
    ghost var turns := 0;
    SearchStart(records, s);
    QueueStep(children, s, 0, queue);
    while queue != []
      invariant FoundOk(records, s, out, queue) && out != [] && out[0] == s
      invariant QueueAfter(children, [s], turns) == Some(queue)
      decreases |records.Keys + {s}| - |out|, |queue|
    {
      var current := queue[|queue| - 1];
      var kids := KidsIn(children, current);
      KidsFound(records, children, current);
      FoundStep(records, s, out, queue, kids);
      FoundBound(records, s, out + kids, queue[..|queue| - 1] + kids);
      QueueStep(children, s, turns, queue);
      turns := turns + 1;
      out, queue := QueueEach(out, queue[..|queue| - 1], kids);
    }
    SearchDone(records, s, out);
  }

  // ---- Exactly when the search ends ---------------------------------------

  ghost predicate SearchEnds(children: map<Id, seq<Id>>, queue: seq<Id>) {
    exists n: nat :: QueueAfter(children, queue, n) == None
  }

  lemma {:induction false} QueueLater(children: map<Id, seq<Id>>, queue: seq<Id>, n: nat)
    requires queue != []
    ensures QueueAfter(children, queue, n + 1) == QueueAfter(children, NextQueue(children, queue), n)
  {
    if n > 0 {
      QueueLater(children, queue, n - 1);
    } else {
      assert QueueAfter(children, queue, 0) == Some(queue);
    }
  }

  lemma {:induction false} TreeSearchEnds(records: Records, children: map<Id, seq<Id>>, s: Id, out: seq<Id>,
                                          queue: seq<Id>)
    requires ChildrenOk(records, children, records.Keys) && !OnCycle(records, s)
    requires FoundOk(records, s, out, queue)
    ensures SearchEnds(children, queue)
    decreases |records.Keys + {s}| - |out|, |queue|
  {
    hide FoundOk, ChildrenOk, KidsOf, OnCycle;
    if queue == [] {
      assert QueueAfter(children, queue, 0) == Some([]);
      assert QueueAfter(children, queue, 1) == None;
    } else {
      var kids := KidsIn(children, queue[|queue| - 1]);
      var next := NextQueue(children, queue);
      KidsFound(records, children, queue[|queue| - 1]);
      FoundStep(records, s, out, queue, kids);
      FoundBound(records, s, out + kids, next);
      TreeSearchEnds(records, children, s, out + kids, next);
      var n: nat :| QueueAfter(children, next, n) == None;
      QueueLater(children, queue, n);
      assert QueueAfter(children, queue, n + 1) == None;
    }
  }

  /** An id queued now has its parent's place after a turn, or waits. */
  lemma CycleStaysQueued(records: Records, children: map<Id, seq<Id>>, s: Id, q: seq<Id>)
    requires ChildrenOk(records, children, records.Keys) && OnCycle(records, s)
    requires exists c :: c in q && Above(records, s, c)
    ensures q != [] && exists c :: c in NextQueue(children, q) && Above(records, s, c)
  {
    var c :| c in q && Above(records, s, c);
    var current := q[|q| - 1];
    if c == current {
      var child := ChildOnCycle(records, s, c);
      KidsFound(records, children, c);
      assert child in NextQueue(children, q);
    } else {
      assert c in q[..|q| - 1];
      assert c in NextQueue(children, q);
    }
  }

  /** Whatever is above an id on a cycle has a child above that id. */
  lemma ChildOnCycle(records: Records, s: Id, c: Id) returns (child: Id)
    requires OnCycle(records, s) && Above(records, s, c)
    ensures child in records && UpFrom(records, child) == Some(c) && Above(records, s, child)
  {
    var k: nat :| Ascend(records, s, k) == Some(c);
    if k > 0 {
      child := Ascend(records, s, k - 1).value;
    } else {
      var n: nat :| Ascend(records, UpFrom(records, s).value, n) == Some(s);
      AscendFromParent(records, s, n);
      assert Ascend(records, s, n + 1) == Some(s);
      child := Ascend(records, s, n).value;
    }
  }

  lemma {:induction false} CycleSearchGoesOn(records: Records, children: map<Id, seq<Id>>, s: Id, n: nat)
    requires ChildrenOk(records, children, records.Keys) && OnCycle(records, s)
    ensures QueueAfter(children, [s], n).Some?
    ensures exists c :: c in QueueAfter(children, [s], n).value && Above(records, s, c)
  {
    hide ChildrenOk, OnCycle, Above, NextQueue;
    if n > 0 {
      CycleSearchGoesOn(records, children, s, n - 1);
      CycleStaysQueued(records, children, s, QueueAfter(children, [s], n - 1).value);
    } else {
      SearchStart(records, s);
      assert s in [s];
    }
  }

  /** The search below `s` ends if and only if `s` is not its own ancestor, whatever cycles there are elsewhere. */
  lemma SearchEndsIff(records: Records, children: map<Id, seq<Id>>, s: Id)
    requires ChildrenOk(records, children, records.Keys)
    ensures SearchEnds(children, [s]) <==> !OnCycle(records, s)
  {
    if OnCycle(records, s) {
      forall n: nat
        ensures QueueAfter(children, [s], n).Some?
      {
        CycleSearchGoesOn(records, children, s, n);
      }
    } else {
      SearchStart(records, s);
      TreeSearchEnds(records, children, s, [s], [s]);
    }
  }

  /** The ledger on which it does not: one record naming itself as its parent. */
  lemma SelfParentNeverEnds(children: map<Id, seq<Id>>)
    requires ChildrenOk(map["s" := Record(Token("s", Some("s")), "a")], children, {"s"})
    ensures !SearchEnds(children, ["s"])
  {
    var records := map["s" := Record(Token("s", Some("s")), "a")];
    assert records.Keys == {"s"};
    assert UpFrom(records, "s") == Some("s") && Ascend(records, "s", 0) == Some("s");
    SearchEndsIff(records, children, "s");
  }

  // ---- Holds published into the ledger ------------------------------------

  predicate SameScope(m: Marker, scope: Scope, scopeId: Id) {
    m.scope == scope && m.scopeId == scopeId
  }

  /** Drop the hold on one scope. */
  function Released(active: seq<Marker>, scope: Scope, scopeId: Id): seq<Marker> {
    if active == [] then []
    else (if SameScope(active[0], scope, scopeId) then [] else [active[0]]) + Released(active[1..], scope, scopeId)
  }

  /** Put a hold in force, in place if its scope already has one. */
  function Placed(active: seq<Marker>, m: Marker): seq<Marker> {
    if active == [] then [m]
    else if SameScope(active[0], m.scope, m.scopeId) then [m] + active[1..]
    else [active[0]] + Placed(active[1..], m)
  }

  /** `_active_containment_holds`: the marker rows folded in order. */
  function ActiveHolds(control: seq<Marker>): seq<Marker> {
    if control == [] then []
    else
      var before := ActiveHolds(control[..|control| - 1]);
      var row := control[|control| - 1];
      if row.HoldMarker? then Placed(before, row) else Released(before, row.scope, row.scopeId)
  }

  /** A hold covers a record being registered. */
  predicate Covers(records: Records, m: Marker, r: Record) {
    || (m.scope == AgentScope && r.agent == m.scopeId)
    || (m.scope == ChainScope && m.scopeId in ChainIds(records, r.token))
  }

  /** The first active hold that covers the record. */
  function FirstCover(records: Records, active: seq<Marker>, r: Record): Option<Marker> {
    if active == [] then None
    else if Covers(records, active[0], r) then Some(active[0])
    else FirstCover(records, active[1..], r)
  }

  /** The rows after registering, or `None` when registration is refused. */
  function RowsAfterRegister(records: Records, control: seq<Marker>, rows: seq<Row>, r: Record): Option<seq<Row>> {
    match FirstCover(records, ActiveHolds(control), r)
    case None => Some(rows)
    case Some(m) => if m.HoldMarker? && m.surface then Some(rows + [Revoked(r.token.id)]) else None
  }

  /** The revocations file both the ledger and containment append to. */
  class RevocationsFile {
    var rows: seq<Row>

    constructor ()
      ensures rows == []
    {
      rows := [];
    }
  }

  /** One line of the ledger file: a record, or a containment control row. */
  datatype LedgerLine = RecordLine(r: Record) | ControlLine(m: Marker)

  /** The records a file loads to; a later line for an id replaces an earlier one. */
  function RecordsOf(lines: seq<LedgerLine>): Records {
    if lines == [] then map[]
    else
      var before, last := RecordsOf(lines[..|lines| - 1]), lines[|lines| - 1];
      if last.RecordLine? then before[last.r.token.id := last.r] else before
  }

  function ControlOf(lines: seq<LedgerLine>): seq<Marker> {
    if lines == [] then []
    else
      var before, last := ControlOf(lines[..|lines| - 1]), lines[|lines| - 1];
      if last.ControlLine? then before + [last.m] else before
  }

  lemma {:induction false} LoadedKeyed(lines: seq<LedgerLine>)
    ensures Keyed(RecordsOf(lines))
  {
    if lines != [] {
      LoadedKeyed(lines[..|lines| - 1]);
    }
  }

  /** `lines` is the ledger file, `records` and `control` what is in memory. */
  class DelegationLedger {
    var lines: seq<LedgerLine>
    var records: Records
    var control: seq<Marker>
    const file: RevocationsFile

    /** Memory is what loading the file again would give. */
    ghost predicate Synced()
      reads this
    {
      records == RecordsOf(lines) && control == ControlOf(lines)
    }

    /** Opening loads the existing file. */
    constructor (file: RevocationsFile, lines: seq<LedgerLine>)
      ensures Synced() && this.lines == lines && this.file == file && Keyed(records)
    {
      this.lines, this.file := lines, file;
      records, control := map[], [];
      new;
      for i := 0 to |lines|
        invariant this.lines == lines
        invariant records == RecordsOf(lines[..i]) && control == ControlOf(lines[..i])
      {
        assert lines[..i + 1][..i] == lines[..i];
        if lines[i].RecordLine? {
          records := records[lines[i].r.token.id := lines[i].r];
        } else {
          control := control + [lines[i].m];
        }
      }
      assert lines[..|lines|] == lines;
      LoadedKeyed(lines);
    }

    /** A containment control row, appended to the file and seen by the next load. */
    method AppendControl(m: Marker)
      modifies this`lines, this`control
      ensures control == old(control) + [m] && lines == old(lines) + [ControlLine(m)]
      ensures old(Synced()) ==> Synced()
    {
      lines := lines + [ControlLine(m)];
      control := control + [m];
      assert lines[..|lines| - 1] == old(lines);
    }

    /** `_active_containment_holds`. */
    method ActiveHoldsLoop() returns (active: seq<Marker>)
      ensures active == ActiveHolds(control)
    {
      active := [];
      for i := 0 to |control|
        invariant active == ActiveHolds(control[..i])
      {
        assert control[..i + 1][..i] == control[..i];
        if control[i].HoldMarker? {
          active := Placed(active, control[i]);
        } else {
          active := Released(active, control[i].scope, control[i].scopeId);
        }
      }
      assert control[..|control|] == control;
    }

    /**
     `register`: a record inside a held scope is revoked as it is registered, or refused
     when the hold names no revocations file. `verified` is the signature check.
     */
    method Register(r: Record, verified: bool) returns (ok: bool)
      modifies this`lines, this`records, file`rows
      ensures ok <==> verified && RowsAfterRegister(old(records), control, old(file.rows), r).Some?
      ensures ok ==> records == old(records)[r.token.id := r]
      ensures ok ==> file.rows == RowsAfterRegister(old(records), control, old(file.rows), r).value
      ensures ok ==> lines == old(lines) + [RecordLine(r)]
      ensures !ok ==> lines == old(lines) && records == old(records) && file.rows == old(file.rows)
      ensures old(Synced()) ==> Synced()
    {
      if !verified {
        return false;
      }
      var held := ActiveHoldsLoop();
      var chain := ChainIdsLoop(records, r.token);
      for i := 0 to |held|
        invariant FirstCover(records, held, r) == FirstCover(records, held[i..], r)
      {
        var m := held[i];
        assert held[i..][1..] == held[i + 1..];
        if (m.scope == AgentScope && r.agent == m.scopeId) || (m.scope == ChainScope && m.scopeId in chain) {
          if !m.HoldMarker? || !m.surface {
            return false;
          }
          file.rows := file.rows + [Revoked(r.token.id)];
          break;
        }
      }
      lines := lines + [RecordLine(r)];
      records := records[r.token.id := r];
      assert lines[..|lines| - 1] == old(lines);
      return true;
    }
  }
}
