/** Which holds the control rows of a ledger leave in force, and what registering a record does under them. */
module LedgerMeaning {
  import opened Basics
  import opened Ledger

  /** The row speaks of the scope of `m`. */
  predicate Concerns(row: Marker, m: Marker) {
    row.scope == m.scope && row.scopeId == m.scopeId
  }

  /** `m` is the last row on its scope, and it is a hold. */
  ghost predicate InForceNow(control: seq<Marker>, m: Marker) {
    m.HoldMarker? &&
    exists i :: 0 <= i < |control| && control[i] == m && forall k :: i < k < |control| ==> !Concerns(control[k], m)
  }

  /** The row that opened the hold on the scope of `m`: no end since, and an end since every earlier hold. */
  ghost predicate OpenedAt(control: seq<Marker>, m: Marker, o: nat) {
    && o < |control| && control[o].HoldMarker? && Concerns(control[o], m)
    && (forall k :: o < k < |control| && Concerns(control[k], m) ==> control[k].HoldMarker?)
    && forall j :: 0 <= j < o && control[j].HoldMarker? && Concerns(control[j], m) ==>
                     exists k :: j < k < o && control[k].ResumeMarker? && Concerns(control[k], m)
  }

  ghost predicate Opened(control: seq<Marker>, m: Marker) {
    exists o :: OpenedAt(control, m, o)
  }

  ghost predicate OpenedBefore(control: seq<Marker>, a: Marker, b: Marker) {
    exists o, q :: o < q && OpenedAt(control, a, o) && OpenedAt(control, b, q)
  }

  ghost predicate OnePerScope(active: seq<Marker>) {
    forall i, k :: 0 <= i < k < |active| ==> !Concerns(active[i], active[k])
  }

  /** `active` lists the holds in force, one a scope, in the order they were opened. */
  ghost predicate ListsInForce(control: seq<Marker>, active: seq<Marker>) {
    && (forall m :: m in active <==> InForceNow(control, m))
    && (forall m :: m in active ==> Opened(control, m))
    && OnePerScope(active)
    && forall i, k :: 0 <= i < k < |active| ==> OpenedBefore(control, active[i], active[k])
  }

  lemma {:induction false} ReleasedIff(active: seq<Marker>, scope: Scope, scopeId: Id)
    ensures forall m :: m in Released(active, scope, scopeId) <==>
                        m in active && !(m.scope == scope && m.scopeId == scopeId)
  {
    if active != [] {
      ReleasedIff(active[1..], scope, scopeId);
      assert active == [active[0]] + active[1..];
    }
  }

  lemma ReleasedCons(active: seq<Marker>, scope: Scope, scopeId: Id)
    requires active != []
    ensures Released(active, scope, scopeId) ==
            (if SameScope(active[0], scope, scopeId) then [] else [active[0]]) + Released(active[1..], scope, scopeId)
  {
  }

  /** `x` stands somewhere in front of `y`. */
  ghost predicate Ahead(list: seq<Marker>, x: Marker, y: Marker) {
    exists i, k :: 0 <= i < k < |list| && list[i] == x && list[k] == y
  }

  lemma AheadCons(head: Marker, rest: seq<Marker>, x: Marker, y: Marker)
    ensures Ahead([head] + rest, x, y) <==> (x == head && y in rest) || Ahead(rest, x, y)
  {
    var list := [head] + rest;
    if x == head && y in rest {
      var k :| 0 <= k < |rest| && rest[k] == y;
      assert list[0] == x && list[k + 1] == y;
    }
    if Ahead(rest, x, y) {
      var i, k :| 0 <= i < k < |rest| && rest[i] == x && rest[k] == y;
      assert list[i + 1] == x && list[k + 1] == y;
    }
    if Ahead(list, x, y) {
      var i, k :| 0 <= i < k < |list| && list[i] == x && list[k] == y;
      assert rest[k - 1] == y && (i > 0 ==> rest[i - 1] == x);
    }
  }

  /** Two holds that stay in force stay in their order. */
  lemma {:induction false} ReleasedKeepsOrder(active: seq<Marker>, scope: Scope, scopeId: Id, x: Marker, y: Marker)
    requires Ahead(Released(active, scope, scopeId), x, y)
    ensures Ahead(active, x, y)
  {
    if active != [] {
      var rest := Released(active[1..], scope, scopeId);
      ReleasedCons(active, scope, scopeId);
      ReleasedIff(active[1..], scope, scopeId);
      hide *;
      AheadCons(active[0], rest, x, y);
      AheadCons(active[0], active[1..], x, y);
      assert active == [active[0]] + active[1..] && [] + rest == rest;
      if Ahead(rest, x, y) {
        ReleasedKeepsOrder(active[1..], scope, scopeId, x, y);
      }
    }
  }

  lemma {:induction false} PlacedShape(active: seq<Marker>, row: Marker)
    ensures (forall m :: m in active ==> !Concerns(m, row)) ==> Placed(active, row) == active + [row]
    ensures (exists m :: m in active && Concerns(m, row)) ==>
              exists i :: 0 <= i < |active| && Concerns(active[i], row) && Placed(active, row) == active[i := row]
  {
    if active != [] {
      assert active == [active[0]] + active[1..];
      if Concerns(active[0], row) {
        assert Placed(active, row) == active[0 := row];
      } else {
        PlacedShape(active[1..], row);
        if m :| m in active[1..] && Concerns(m, row) {
          var i :| 0 <= i < |active[1..]| && Concerns(active[1..][i], row)
            && Placed(active[1..], row) == active[1..][i := row];
          assert Placed(active, row) == active[i + 1 := row];
        }
      }
    }
  }

  // ---- One more row -------------------------------------------------------

  lemma ForceStays(control: seq<Marker>, row: Marker, m: Marker)
    ensures InForceNow(control + [row], m) <==>
            (row.HoldMarker? && m == row) || (InForceNow(control, m) && !Concerns(row, m))
  {
    var more := control + [row];
    assert more[|control|] == row && forall k :: 0 <= k < |control| ==> more[k] == control[k];
    if InForceNow(control, m) && !Concerns(row, m) {
      var i :| 0 <= i < |control| && control[i] == m && forall k :: i < k < |control| ==> !Concerns(control[k], m);
      assert more[i] == m && forall k :: i < k < |more| ==> !Concerns(more[k], m);
    }
    if InForceNow(more, m) && !(row.HoldMarker? && m == row) {
      var i :| 0 <= i < |more| && more[i] == m && forall k :: i < k < |more| ==> !Concerns(more[k], m);
      assert i < |control| && control[i] == m;
      assert forall k :: i < k < |control| ==> more[k] == control[k];
      assert forall k :: i < k < |control| ==> !Concerns(control[k], m);
    }
  }

  lemma OpeningStays(control: seq<Marker>, row: Marker, m: Marker, o: nat)
    requires OpenedAt(control, m, o) && (row.HoldMarker? || !Concerns(row, m))
    ensures OpenedAt(control + [row], m, o)
  {
    var more := control + [row];
    assert more[|control|] == row && forall k :: 0 <= k < |control| ==> more[k] == control[k];
    forall j | 0 <= j < o && more[j].HoldMarker? && Concerns(more[j], m)
      ensures exists k :: j < k < o && more[k].ResumeMarker? && Concerns(more[k], m)
    {
      assert control[j].HoldMarker? && Concerns(control[j], m);
      var k :| j < k < o && control[k].ResumeMarker? && Concerns(control[k], m);
      assert more[k] == control[k];
    }
  }

  /** A hold on a scope that has none in force opens one. */
  lemma NewOpening(control: seq<Marker>, row: Marker)
    requires row.HoldMarker? && forall m :: InForceNow(control, m) ==> !Concerns(m, row)
    ensures OpenedAt(control + [row], row, |control|)
  {
    var more := control + [row];
    assert more[|control|] == row && forall k :: 0 <= k < |control| ==> more[k] == control[k];
    forall j | 0 <= j < |control| && more[j].HoldMarker? && Concerns(more[j], row)
      ensures exists k :: j < k < |control| && more[k].ResumeMarker? && Concerns(more[k], row)
    {
      var l := LastOn(control, row, j);
      assert more[l] == control[l];
      if control[l].HoldMarker? {
        assert InForceNow(control, control[l]);
      }
    }
  }

  /** The last row on the scope, at or after one that is on it. */
  lemma {:induction false} LastOn(control: seq<Marker>, m: Marker, j: nat) returns (l: nat)
    requires j < |control| && Concerns(control[j], m)
    ensures j <= l < |control| && Concerns(control[l], m)
    ensures forall k :: l < k < |control| ==> !Concerns(control[k], m)
    decreases |control| - j
  {
    if k :| j < k < |control| && Concerns(control[k], m) {
      l := LastOn(control, m, k);
    } else {
      l := j;
    }
  }

  lemma SameScopeOpening(control: seq<Marker>, a: Marker, b: Marker, o: nat)
    requires OpenedAt(control, a, o) && Concerns(a, b)
    ensures OpenedAt(control, b, o)
  {
    forall j | 0 <= j < o && control[j].HoldMarker? && Concerns(control[j], b)
      ensures exists k :: j < k < o && control[k].ResumeMarker? && Concerns(control[k], b)
    {
      assert Concerns(control[j], a);
      var k :| j < k < o && control[k].ResumeMarker? && Concerns(control[k], a);
      assert Concerns(control[k], b);
    }
  }

  lemma OpenedStays(control: seq<Marker>, row: Marker, a: Marker, b: Marker)
    requires row.HoldMarker? || (!Concerns(row, a) && !Concerns(row, b))
    ensures Opened(control, a) ==> Opened(control + [row], a)
    ensures OpenedBefore(control, a, b) ==> OpenedBefore(control + [row], a, b)
  {
    if o :| OpenedAt(control, a, o) {
      OpeningStays(control, row, a, o);
    }
    if OpenedBefore(control, a, b) {
      var o, q :| o < q && OpenedAt(control, a, o) && OpenedAt(control, b, q);
      OpeningStays(control, row, a, o);
      OpeningStays(control, row, b, q);
    }
  }

  /** A hold on a scope that has one in force takes its place. */
  lemma HoldReplaces(control: seq<Marker>, active: seq<Marker>, row: Marker, i: nat)
    requires ListsInForce(control, active) && row.HoldMarker? && i < |active| && Concerns(active[i], row)
    ensures ListsInForce(control + [row], active[i := row])
  {
    var next, more := active[i := row], control + [row];
    forall m ensures m in next <==> InForceNow(more, m) {
      ForceStays(control, row, m);
      if m in active && !Concerns(row, m) {
        var k :| 0 <= k < |active| && active[k] == m;
        assert next[k] == m;
      }
      if m in next && m != row {
        var k :| 0 <= k < |next| && next[k] == m;
        assert active[k] == m && k != i;
      }
      assert next[i] == row;
    }
    hide InForceNow, OpenedAt;
    forall k | 0 <= k < |active| ensures Opened(more, next[k]) {
      assert active[k] in active;
      OpenedStays(control, row, active[k], active[k]);
      if k == i {
        OpenedAlike(more, active[i], row, row, active[i]);
      }
    }
    forall k, l | 0 <= k < l < |active| ensures OpenedBefore(more, next[k], next[l]) {
      OpenedStays(control, row, active[k], active[l]);
      if k == i {
        OpenedAlike(more, active[i], row, active[l], active[l]);
      } else if l == i {
        OpenedAlike(more, active[k], active[k], active[i], row);
      }
    }
  }

  lemma OpenedAlike(control: seq<Marker>, a: Marker, c: Marker, b: Marker, d: Marker)
    requires Concerns(a, c) && Concerns(b, d)
    ensures Opened(control, a) ==> Opened(control, c)
    ensures OpenedBefore(control, a, b) ==> OpenedBefore(control, c, d)
  {
    if o :| OpenedAt(control, a, o) {
      SameScopeOpening(control, a, c, o);
    }
    if OpenedBefore(control, a, b) {
      var o, q :| o < q && OpenedAt(control, a, o) && OpenedAt(control, b, q);
      SameScopeOpening(control, a, c, o);
      SameScopeOpening(control, b, d, q);
    }
  }

  /** A hold on a scope that has none in force joins at the end. */
  lemma HoldJoins(control: seq<Marker>, active: seq<Marker>, row: Marker)
    requires ListsInForce(control, active) && row.HoldMarker? && forall m :: m in active ==> !Concerns(m, row)
    ensures ListsInForce(control + [row], active + [row])
  {
    var next, more := active + [row], control + [row];
    NewOpening(control, row);
    forall m ensures m in next <==> InForceNow(more, m) {
      ForceStays(control, row, m);
    }
    forall k | 0 <= k < |active| ensures Opened(more, active[k]) && OpenedBefore(more, active[k], row) {
      assert active[k] in active;
      var o :| OpenedAt(control, active[k], o);
      OpeningStays(control, row, active[k], o);
    }
    hide InForceNow, OpenedAt;
    forall k, l | 0 <= k < l < |next| ensures OpenedBefore(more, next[k], next[l]) {
      if l < |active| {
        OpenedStays(control, row, active[k], active[l]);
      }
    }
    assert Opened(more, row);
  }

  lemma EndInForce(control: seq<Marker>, active: seq<Marker>, row: Marker, m: Marker)
    requires ListsInForce(control, active) && row.ResumeMarker?
    ensures m in Released(active, row.scope, row.scopeId) <==> InForceNow(control + [row], m)
  {
    ReleasedIff(active, row.scope, row.scopeId);
    ForceStays(control, row, m);
    hide InForceNow, Opened, OpenedBefore, Released;
  }

  lemma EndOrder(control: seq<Marker>, active: seq<Marker>, row: Marker, k: nat, l: nat)
    requires ListsInForce(control, active) && row.ResumeMarker?
    requires k < l < |Released(active, row.scope, row.scopeId)|
    ensures var next := Released(active, row.scope, row.scopeId);
            !Concerns(next[k], next[l]) && OpenedBefore(control + [row], next[k], next[l])
  {
    var next := Released(active, row.scope, row.scopeId);
    ReleasedIff(active, row.scope, row.scopeId);
    assert Ahead(next, next[k], next[l]);
    ReleasedKeepsOrder(active, row.scope, row.scopeId, next[k], next[l]);
    assert next[k] in next && next[l] in next;
    hide InForceNow, Opened, OpenedBefore, Released;
    OpenedStays(control, row, next[k], next[l]);
  }

  lemma EndOpened(control: seq<Marker>, active: seq<Marker>, row: Marker, m: Marker)
    requires ListsInForce(control, active) && row.ResumeMarker? && m in Released(active, row.scope, row.scopeId)
    ensures Opened(control + [row], m)
  {
    ReleasedIff(active, row.scope, row.scopeId);
    hide InForceNow, Opened, OpenedBefore, Released;
    OpenedStays(control, row, m, m);
  }

  lemma FoldedList(control: seq<Marker>, active: seq<Marker>)
    requires forall m :: m in active <==> InForceNow(control, m)
    requires forall m :: m in active ==> Opened(control, m)
    requires forall i, k :: 0 <= i < k < |active| ==>
               !Concerns(active[i], active[k]) && OpenedBefore(control, active[i], active[k])
    ensures ListsInForce(control, active)
  {
    hide InForceNow, Opened, OpenedBefore, Concerns;
  }

  /** The end of a hold takes its scope out. */
  lemma EndReleases(control: seq<Marker>, active: seq<Marker>, row: Marker)
    requires ListsInForce(control, active) && row.ResumeMarker?
    ensures ListsInForce(control + [row], Released(active, row.scope, row.scopeId))
  {
    hide *;
    var next, more := Released(active, row.scope, row.scopeId), control + [row];
    forall m ensures m in next <==> InForceNow(more, m) {
      EndInForce(control, active, row, m);
    }
    forall m | m in next ensures Opened(more, m) {
      EndOpened(control, active, row, m);
    }
    forall k, l | 0 <= k < l < |next| ensures !Concerns(next[k], next[l]) && OpenedBefore(more, next[k], next[l]) {
      EndOrder(control, active, row, k, l);
    }
    FoldedList(more, next);
  }

  /** The fold of the control rows lists exactly the scopes whose last row is a hold, in the order they were opened. */
  lemma {:induction false} ActiveHoldsIff(control: seq<Marker>)
    ensures ListsInForce(control, ActiveHolds(control))
  {
    if control != [] {
      var before, row := control[..|control| - 1], control[|control| - 1];
      assert control == before + [row];
      ActiveHoldsIff(before);
      var active := ActiveHolds(before);
      hide ListsInForce, Concerns;
      if row.HoldMarker? {
        PlacedShape(active, row);
        if m :| m in active && Concerns(m, row) {
          var i :| 0 <= i < |active| && Concerns(active[i], row) && Placed(active, row) == active[i := row];
          HoldReplaces(before, active, row, i);
        } else {
          HoldJoins(before, active, row);
        }
      } else {
        EndReleases(before, active, row);
      }
    }
  }

  /** An empty parent id is no parent: the chain of its token is the token alone. */
  lemma EmptyParentIsNone(records: Records, t: Token, p: Id)
    ensures Up(t) == Some(p) <==> t.parent == Some(p) && p != ""
    ensures t.parent == Some("") ==> ChainIds(records, t) == {t.id}
  {
  }

  // ---- Registering under holds --------------------------------------------

  /** The hold covers the record: its agent's, or one on the record itself or an ancestor it will have. */
  ghost predicate Reaches(records: Records, m: Marker, r: Record) {
    || (m.scope == AgentScope && r.agent == m.scopeId)
    || (m.scope == ChainScope && Above(records[r.token.id := r], r.token.id, m.scopeId))
  }

  /** The earliest opened of the holds in force that cover the record. */
  ghost predicate FirstReaching(records: Records, active: seq<Marker>, r: Record, m: Marker) {
    exists i :: && 0 <= i < |active| && active[i] == m && Reaches(records, m, r)
                && forall k :: 0 <= k < i ==> !Reaches(records, active[k], r)
  }

  lemma {:induction false} FirstCoverIff(records: Records, active: seq<Marker>, r: Record)
    ensures FirstCover(records, active, r) == None <==>
            forall i :: 0 <= i < |active| ==> !Reaches(records, active[i], r)
    ensures forall m :: FirstCover(records, active, r) == Some(m) <==> FirstReaching(records, active, r, m)
  {
    if active != [] {
      var rest := active[1..];
      FirstCoverIff(records, rest, r);
      ChainIdsAreAbove(records, r, active[0].scopeId);
      assert Covers(records, active[0], r) <==> Reaches(records, active[0], r);
      assert forall i :: 0 <= i < |rest| ==> rest[i] == active[i + 1];
      hide Reaches, Covers;
      if Reaches(records, active[0], r) {
        assert FirstReaching(records, active, r, active[0]);
      } else {
        forall m ensures FirstReaching(records, active, r, m) <==> FirstReaching(records, rest, r, m) {
          if FirstReaching(records, rest, r, m) {
            var i :| 0 <= i < |rest| && rest[i] == m && Reaches(records, m, r)
              && forall k :: 0 <= k < i ==> !Reaches(records, rest[k], r);
            assert active[i + 1] == m && forall k :: 0 < k < i + 1 ==> active[k] == rest[k - 1];
          }
          if FirstReaching(records, active, r, m) {
            var i :| 0 <= i < |active| && active[i] == m && Reaches(records, m, r)
              && forall k :: 0 <= k < i ==> !Reaches(records, active[k], r);
            assert rest[i - 1] == m && forall k :: 0 <= k < i - 1 ==> rest[k] == active[k + 1];
          }
        }
      }
    }
  }

  /**
   Registering appends the revocation of a record that a hold in force covers, is refused when that hold names no
   revocations file, and leaves the rows alone when none covers it.
   */
  lemma RegisteredIff(records: Records, control: seq<Marker>, rows: seq<Row>, r: Record)
    ensures exists active :: ListsInForce(control, active) &&
              var after := RowsAfterRegister(records, control, rows, r);
              && (after == Some(rows) <==> forall i :: 0 <= i < |active| ==> !Reaches(records, active[i], r))
              && (after == Some(rows + [Revoked(r.token.id)]) <==>
                    exists m :: FirstReaching(records, active, r, m) && m.HoldMarker? && m.surface)
              && (after == None <==> exists m :: FirstReaching(records, active, r, m) && m.HoldMarker? && !m.surface)
  {
    var active := ActiveHolds(control);
    ActiveHoldsIff(control);
    FirstCoverIff(records, active, r);
    forall m | m in active ensures m.HoldMarker? {
      assert InForceNow(control, m);
    }
    hide Reaches, InForceNow, OpenedAt, Opened, OpenedBefore, FirstCover, ActiveHolds, Concerns;
    assert |rows + [Revoked(r.token.id)]| != |rows|;
  }
}
