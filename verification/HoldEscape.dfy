/** Exactly when a registration during a hold leaves authority outside it. */
module HoldEscape {
  import opened Basics
  import opened Ledger
  import opened Containment

  /** Every record in the scope is revoked. */
  ghost predicate Covered(w: World, scope: Scope, scopeId: Id) {
    forall id :: InScope(w.records, scope, scopeId, id) ==> IsRevoked(w.rows, id)
  }

  /** After a registration, an id is above `x` as it was before, or by way of the registered id. */
  lemma {:induction false} AboveSplit(records: Records, r: Record, x: Id, s: Id, k: nat)
    requires Ascend(records[r.token.id := r], x, k) == Some(s)
    ensures Above(records, x, s) || (Above(records, x, r.token.id) && Above(records[r.token.id := r], r.token.id, s))
    decreases k
  {
    hide Above;
    var next := records[r.token.id := r];
    AboveStep(records, x, s);
    AboveStep(records, x, r.token.id);
    if x == r.token.id {
      AscentIsAbove(next, x, s, k);
    } else if k > 0 {
      AscendFromParent(next, x, k - 1);
      AboveSplit(records, r, UpFrom(next, x).value, s, k - 1);
    }
  }

  lemma AscentIsAbove(records: Records, x: Id, s: Id, k: nat)
    requires Ascend(records, x, k) == Some(s)
    ensures Above(records, x, s)
  {
  }

  /** What was below the registered id is now below everything above it. */
  lemma {:induction false} AboveJoin(records: Records, r: Record, x: Id, s: Id, k: nat)
    requires Ascend(records, x, k) == Some(r.token.id) && Above(records[r.token.id := r], r.token.id, s)
    ensures Above(records[r.token.id := r], x, s)
    decreases k
  {
    hide Above;
    AboveStep(records[r.token.id := r], x, s);
    if x != r.token.id && k > 0 {
      AscendFromParent(records, x, k - 1);
      AboveJoin(records, r, UpFrom(records, x).value, s, k - 1);
    }
  }

  /** The chain scope after a registration, for the other records. */
  lemma ScopeAfterRegister(records: Records, r: Record, s: Id, x: Id)
    requires Keyed(records) && x in records && x != r.token.id
    ensures var hit := s in ChainIds(records, r.token) && r.token.id in ChainIds(records, records[x].token);
            && (hit ==> InScope(records[r.token.id := r], ChainScope, s, x))
            && (InScope(records[r.token.id := r], ChainScope, s, x) ==> hit || InScope(records, ChainScope, s, x))
  {
    hide Above, ChainIds;
    var next := records[r.token.id := r];
    ChainIdsAreAbove(records, r, s);
    ChainIdsAreAncestors(records, x);
    ChainIdsAreAncestors(next, x);
    if Above(records, x, r.token.id) && Above(next, r.token.id, s) {
      var k := AboveAscent(records, x, r.token.id);
      AboveJoin(records, r, x, s, k);
    }
    if Above(next, x, s) {
      var k := AboveAscent(next, x, s);
      AboveSplit(records, r, x, s, k);
    }
  }

  lemma AboveAscent(records: Records, x: Id, s: Id) returns (k: nat)
    requires Above(records, x, s)
    ensures Ascend(records, x, k) == Some(s)
  {
    k :| Ascend(records, x, k) == Some(s);
  }

  /** The registration lies outside the chain of `s`, or everything else already below it is revoked. */
  ghost predicate ClosedBelow(w: World, r: Record, s: Id) {
    s in ChainIds(w.records, r.token) ==>
      forall x :: x in w.records && x != r.token.id && r.token.id in ChainIds(w.records, w.records[x].token) ==>
        IsRevoked(w.rows, x)
  }

  /** A registration covered by the only hold in force adds exactly its own revocation. */
  lemma RowsUnderOneHold(w: World, r: Record, held: Marker)
    requires ActiveHolds(w.control) == [held] && held.HoldMarker? && held.surface
    ensures RowsAfterRegister(w.records, w.control, w.rows, r)
            == Some(if Covers(w.records, held, r) then w.rows + [Revoked(r.token.id)] else w.rows)
  {
    assert [held][1..] == [];
    assert FirstCover(w.records, [held][1..], r) == None;
  }

  /**
   Exactly when a registration keeps a chain hold closed, on every ledger, for new ids and
   for ids registered again: it lies outside the held chain, or every other record already
   below it is revoked.
   */
  lemma RegisterKeepsHoldIff(w: World, r: Record, s: Id)
    requires Keyed(w.records) && Covered(w, ChainScope, s)
    requires ActiveHolds(w.control) == [HoldMarker(ChainScope, s, true)]
    ensures Covered(RegisterIn(w, r, true), ChainScope, s) <==> ClosedBelow(w, r, s)
  {
    hide ActiveHolds, ChainIds, RowsAfterRegister;
    RowsUnderOneHold(w, r, HoldMarker(ChainScope, s, true));
    var v := RegisterIn(w, r, true);
    var hit := s in ChainIds(w.records, r.token);
    assert v.records == w.records[r.token.id := r];
    OwnScope(w.records, r, s);
    assert forall x :: x != r.token.id ==> (IsRevoked(v.rows, x) <==> IsRevoked(w.rows, x));
    assert hit ==> v.rows[|w.rows|] == Revoked(r.token.id);
    forall x | x in w.records && x != r.token.id
      ensures hit && r.token.id in ChainIds(w.records, w.records[x].token) ==> InScope(v.records, ChainScope, s, x)
      ensures InScope(v.records, ChainScope, s, x) ==>
                InScope(w.records, ChainScope, s, x) || (hit && r.token.id in ChainIds(w.records, w.records[x].token))
    {
      ScopeAfterRegister(w.records, r, s, x);
    }
  }

  /** The registered record is in the scope it was checked against. */
  lemma OwnScope(records: Records, r: Record, s: Id)
    ensures InScope(records[r.token.id := r], ChainScope, s, r.token.id) <==> s in ChainIds(records, r.token)
  {
    var next := records[r.token.id := r];
    assert next[r.token.id := r] == next;
    ChainIdsAreAbove(records, r, s);
    ChainIdsAreAbove(next, r, s);
  }

  /** An agent hold stays closed whatever is registered. */
  lemma RegisterKeepsAgentHold(w: World, r: Record, agent: Id)
    requires Covered(w, AgentScope, agent) && ActiveHolds(w.control) == [HoldMarker(AgentScope, agent, true)]
    ensures Covered(RegisterIn(w, r, true), AgentScope, agent)
  {
    hide ActiveHolds, RowsAfterRegister;
    RowsUnderOneHold(w, r, HoldMarker(AgentScope, agent, true));
    var v := RegisterIn(w, r, true);
    forall id | InScope(v.records, AgentScope, agent, id)
      ensures IsRevoked(v.rows, id)
    {
      if id == r.token.id {
        assert v.rows[|w.rows|] == Revoked(id);
      } else {
        assert InScope(w.records, AgentScope, agent, id);
      }
    }
  }

  /** Parents first is enough: a new id nobody names as parent, or the link an id already has. */
  lemma ParentsFirstIsClosed(w: World, r: Record, s: Id)
    requires Keyed(w.records) && Covered(w, ChainScope, s)
    requires UpFrom(w.records, r.token.id) == Up(r.token) || r.token.id !in Linked(w.records)
    ensures ClosedBelow(w, r, s)
  {
    hide Above, ChainIds;
    var id := r.token.id;
    forall x | x in w.records && x != id && s in ChainIds(w.records, r.token)
               && id in ChainIds(w.records, w.records[x].token)
      ensures IsRevoked(w.rows, x)
    {
      ChainIdsAreAncestors(w.records, x);
      var k := AboveAscent(w.records, x, id);
      assert k > 0;
      assert id == UpFrom(w.records, Ascend(w.records, x, k - 1).value).value;
      SameLinks(w.records, r, s);
      AboveTransitive(w.records, x, id, s, k);
    }
  }

  /** Storing a record whose link the ledger has already changes no chain. */
  lemma SameLinks(records: Records, r: Record, s: Id)
    requires UpFrom(records, r.token.id) == Up(r.token) && s in ChainIds(records, r.token)
    ensures Above(records, r.token.id, s)
  {
    var next := records[r.token.id := r];
    ChainIdsAreAbove(records, r, s);
    var k: nat :| Ascend(next, r.token.id, k) == Some(s);
    AscentAgrees(records, next, r.token.id, k);
  }

  lemma {:induction false} AscentAgrees(a: Records, b: Records, x: Id, k: nat)
    requires forall id :: UpFrom(a, id) == UpFrom(b, id)
    ensures Ascend(a, x, k) == Ascend(b, x, k)
  {
    if k > 0 {
      AscentAgrees(a, b, x, k - 1);
    }
  }

  lemma {:induction false} AboveTransitive(records: Records, x: Id, y: Id, s: Id, k: nat)
    requires Ascend(records, x, k) == Some(y) && Above(records, y, s)
    ensures Above(records, x, s)
    decreases k
  {
    hide Above;
    AboveStep(records, x, s);
    if k > 0 {
      AscendFromParent(records, x, k - 1);
      AboveTransitive(records, UpFrom(records, x).value, y, s, k - 1);
    }
  }

  // ---- The inputs on which a record escapes -------------------------------

  lemma ChainOfTwo(records: Records, r: Record, p: Id)
    requires Up(r.token) == Some(p) && p != r.token.id && UpFrom(records, p) == None
    ensures ChainIds(records, r.token) == {r.token.id, p}
  {
    var universe := Universe(records, r.token);
    assert ChainFrom(records, universe, Some(p), {r.token.id})
           == ChainFrom(records, universe, None, {r.token.id} + {p});
  }

  /** A child registered before its parent escapes a hold on the chain above both. */
  lemma ChildFirstEscapes(w: World)
    requires w.records == map["s" := Record(Token("s", None), "a")]
    requires w.rows == [Revoked("s")] && w.control == [HoldMarker(ChainScope, "s", true)]
    ensures Covered(w, ChainScope, "s")
    ensures var child := Record(Token("c", Some("p")), "b");
            var parent := Record(Token("p", Some("s")), "b");
            var v := RegisterIn(RegisterIn(w, child, true), parent, true);
            InScope(v.records, ChainScope, "s", "c") && !IsRevoked(v.rows, "c")
  {
    var child := Record(Token("c", Some("p")), "b");
    var parent := Record(Token("p", Some("s")), "b");
    var held := HoldMarker(ChainScope, "s", true);
    assert w.control[..0] == [] && ActiveHolds(w.control) == [held];
    assert [held][1..] == [];
    ChainOfTwo(w.records, child, "p");
    assert FirstCover(w.records, [held], child) == None;
    var w1 := RegisterIn(w, child, true);
    assert w1.rows == [Revoked("s")] && w1.control == w.control;
    ChainOfTwo(w1.records, parent, "s");
    assert FirstCover(w1.records, [held], parent) == Some(held);
    var v := RegisterIn(w1, parent, true);
    assert v.rows == [Revoked("s"), Revoked("p")] && v.records["c"] == child;
    var universe := Universe(v.records, child.token);
    assert Up(child.token) == Some("p") && UpFrom(v.records, "p") == Some("s");
    assert ChainFrom(v.records, universe, Some("p"), {"c"}) == ChainFrom(v.records, universe, Some("s"), {"c"} + {"p"});
    assert UpFrom(v.records, "s") == None;
    assert ChainFrom(v.records, universe, Some("s"), {"c"} + {"p"}) == {"c"} + {"p"} + {"s"};
  }

  /**
   A second way out: an id registered before is registered again under a new parent, since the
   id is no part of what is signed, and what hangs below it enters the held chain unrevoked.
   */
  lemma RelinkedEscapes(w: World)
    requires w.records == map["s" := Record(Token("s", None), "a"), "x" := Record(Token("x", None), "b"),
                              "c" := Record(Token("c", Some("x")), "b")]
    requires w.rows == [Revoked("s")] && w.control == [HoldMarker(ChainScope, "s", true)]
    ensures Covered(w, ChainScope, "s")
    ensures var v := RegisterIn(w, Record(Token("x", Some("s")), "b"), true);
            InScope(v.records, ChainScope, "s", "c") && !IsRevoked(v.rows, "c")
  {
    var again, held := Record(Token("x", Some("s")), "b"), HoldMarker(ChainScope, "s", true);
    assert w.control[..0] == [] && ActiveHolds(w.control) == [held];
    ChainOfTwo(w.records, w.records["c"], "x");
    ChainOfTwo(w.records, again, "s");
    assert Keyed(w.records);
    assert Covered(w, ChainScope, "s");
    RowsUnderOneHold(w, again, held);
    assert RegisterIn(w, again, true).rows == [Revoked("s"), Revoked("x")];
    ScopeAfterRegister(w.records, again, "s", "c");
  }
}
