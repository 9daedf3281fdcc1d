/**
 When a delegation walk ends (`_walk_delegation` in `raucle/chain_graph.py`). The loop stops on
 hops only at tokens that are not yet node ids, so a cycle of tokens that are keeps it going.
 */
module GraphTurns {
  import opened Basics
  import opened ChainGraph

  /** Where a walk stands: the ids of the graph so far, the hops left, and the token to visit next. */
  datatype Walker = Walker(visited: set<Id>, hops: int, token: Id)

  /** The token's node is cut: out of hops at an id not seen before, or out of room. */
  predicate Blocked(ctx: Context, w: Walker) {
    || (w.hops <= 0 && w.token !in w.visited)
    || (DelegationId(w.token) !in w.visited && |w.visited| >= ctx.breadth)
  }

  /** One turn of the walk; `None` when it stops. */
  function Turn(ctx: Context, w: Walker): Option<Walker> {
    var node := DelegationId(w.token);
    if Blocked(ctx, w) then None
    else if w.token !in ctx.tokens || ctx.tokens[w.token].None? || ctx.tokens[w.token].value !in ctx.tokens then None
    else Some(Walker(w.visited + {node}, w.hops - 1, ctx.tokens[w.token].value))
  }

  function Turns(ctx: Context, w: Walker, n: nat): Option<Walker> {
    if n == 0 then Some(w)
    else
      match Turns(ctx, w, n - 1)
      case None => None
      case Some(v) => Turn(ctx, v)
  }

  ghost predicate Ends(ctx: Context, w: Walker) {
    exists n: nat :: Turns(ctx, w, n) == None
  }

  /** The node ids of the first `k` tokens of the chain above `token`. */
  ghost function Below(ctx: Context, token: Id, k: nat): set<Id> {
    if k == 0 then {}
    else
      var a := Ancestor(ctx, token, k - 1);
      Below(ctx, token, k - 1) + if a.Some? then {DelegationId(a.value)} else {}
  }

  /**
   The `k`-th token above does not stop the walk: it is a record, past the hops it is already
   the id of a node (there before, or of an earlier token of the chain), and all nodes up to
   its own fit the breadth.
   */
  ghost predicate Passable(ctx: Context, w: Walker, k: nat) {
    var a := Ancestor(ctx, w.token, k);
    && a.Some? && a.value in ctx.tokens
    && (k >= w.hops ==> a.value in w.visited + Below(ctx, w.token, k))
    && |w.visited + Below(ctx, w.token, k + 1)| <= ctx.breadth
  }

  /** How far up the chain one has to look. */
  function LookAhead(ctx: Context, w: Walker): nat {
    (if w.hops > 0 then w.hops else 0) + |ctx.tokens.Keys|
  }

  lemma TurnsZero(ctx: Context, w: Walker)
    ensures Turns(ctx, w, 0) == Some(w) && Ancestor(ctx, w.token, 0) == Some(w.token)
    ensures Below(ctx, w.token, 0) == {} && w.visited + Below(ctx, w.token, 0) == w.visited
  {
  }

  lemma TurnsNext(ctx: Context, w: Walker, n: nat)
    ensures Turns(ctx, w, n + 1) ==
            if Turns(ctx, w, n).None? then None else Turn(ctx, Turns(ctx, w, n).value)
    ensures Ancestor(ctx, w.token, n).None? ==> Ancestor(ctx, w.token, n + 1).None?
    ensures Ancestor(ctx, w.token, n).Some? && Ancestor(ctx, w.token, n).value !in ctx.tokens ==>
              Ancestor(ctx, w.token, n + 1).None?
  {
  }

  lemma RoomAt(ctx: Context, w: Walker, k: nat)
    requires Passable(ctx, w, k)
    ensures |w.visited + Below(ctx, w.token, k + 1)| <= ctx.breadth
  {
  }

  lemma {:induction false} TurnsIff(ctx: Context, w: Walker, n: nat)
    requires |w.visited| <= ctx.breadth && w.token in ctx.tokens
    ensures Turns(ctx, w, n).Some? <==>
            (forall k :: 0 <= k < n ==> Passable(ctx, w, k))
            && Ancestor(ctx, w.token, n).Some? && Ancestor(ctx, w.token, n).value in ctx.tokens
    ensures Turns(ctx, w, n).Some? ==>
              Turns(ctx, w, n).value
              == Walker(w.visited + Below(ctx, w.token, n), w.hops - n, Ancestor(ctx, w.token, n).value)
  {
    hide *;
    TurnsZero(ctx, w);
    if n > 0 {
      TurnsIff(ctx, w, n - 1);
      TurnsNext(ctx, w, n - 1);
      if Turns(ctx, w, n - 1).Some? {
        if n > 1 {
          RoomAt(ctx, w, n - 2);
        }
        TurnStep(ctx, w, n - 1);
      }
    }
  }

  lemma TurnStep(ctx: Context, w: Walker, k: nat)
    requires Ancestor(ctx, w.token, k).Some? && Ancestor(ctx, w.token, k).value in ctx.tokens
    requires |w.visited + Below(ctx, w.token, k)| <= ctx.breadth
    ensures var v := Walker(w.visited + Below(ctx, w.token, k), w.hops - k, Ancestor(ctx, w.token, k).value);
            var up := Ancestor(ctx, w.token, k + 1);
            && (Turn(ctx, v).Some? <==> Passable(ctx, w, k) && up.Some? && up.value in ctx.tokens)
            && (Turn(ctx, v).Some? ==>
                  Turn(ctx, v).value == Walker(w.visited + Below(ctx, w.token, k + 1), w.hops - k - 1, up.value))
  {
    var a := Ancestor(ctx, w.token, k).value;
    var seen := w.visited + Below(ctx, w.token, k);
    assert w.visited + Below(ctx, w.token, k + 1) == seen + {DelegationId(a)};
  }


  /** The walk stops in its turn after `n` others. */
  ghost predicate LastTurn(ctx: Context, w: Walker, n: nat) {
    Turns(ctx, w, n).Some? && Turn(ctx, Turns(ctx, w, n).value) == None
  }

  /** The ids of the graph after a last turn: the token's node is in it unless it was cut. */
  function IdsAfter(ctx: Context, w: Walker): set<Id> {
    w.visited + if Blocked(ctx, w) then {} else {DelegationId(w.token)}
  }

  lemma {:induction false} TurnsOnlyStop(ctx: Context, w: Walker, n: nat, m: nat)
    requires n <= m && Turns(ctx, w, m).Some?
    ensures Turns(ctx, w, n).Some?
    decreases m
  {
    if n < m {
      TurnsOnlyStop(ctx, w, n, m - 1);
    }
  }

  lemma OneLastTurn(ctx: Context, w: Walker, n: nat, m: nat)
    requires LastTurn(ctx, w, n) && LastTurn(ctx, w, m)
    ensures n == m
  {
    if n < m {
      TurnsOnlyStop(ctx, w, n + 1, m);
    } else if m < n {
      TurnsOnlyStop(ctx, w, m + 1, n);
    }
  }

  lemma {:induction false} SomeLastTurn(ctx: Context, w: Walker, n: nat) returns (last: nat)
    requires Turns(ctx, w, n) == None
    ensures last < n && LastTurn(ctx, w, last)
  {
    if Turns(ctx, w, n - 1) == None {
      last := SomeLastTurn(ctx, w, n - 1);
    } else {
      last := n - 1;
    }
  }

  lemma EndsIffLastTurn(ctx: Context, w: Walker)
    ensures Ends(ctx, w) <==> exists n: nat :: LastTurn(ctx, w, n)
  {
    if Ends(ctx, w) {
      var n: nat :| Turns(ctx, w, n) == None;
      var last := SomeLastTurn(ctx, w, n);
    }
    if n: nat :| LastTurn(ctx, w, n) {
      assert Turns(ctx, w, n + 1) == None;
    }
  }

  /** The ids of the graph after the whole walk. */
  ghost function Walked(ctx: Context, w: Walker): set<Id>
    requires Ends(ctx, w)
  {
    EndsIffLastTurn(ctx, w);
    var n: nat :| LastTurn(ctx, w, n);
    IdsAfter(ctx, Turns(ctx, w, n).value)
  }

  lemma WalkedTo(ctx: Context, w: Walker, n: nat)
    requires Ends(ctx, w) && LastTurn(ctx, w, n)
    ensures Walked(ctx, w) == IdsAfter(ctx, Turns(ctx, w, n).value)
  {
    forall m: nat | LastTurn(ctx, w, m)
      ensures m == n
    {
      OneLastTurn(ctx, w, n, m);
    }
  }

  // ---- The exact condition ------------------------------------------------

  /** The walk ends exactly when some token above stops it. */
  lemma EndsIffStopped(ctx: Context, w: Walker)
    requires |w.visited| <= ctx.breadth && w.token in ctx.tokens
    ensures Ends(ctx, w) <==> exists k: nat :: !Passable(ctx, w, k)
  {
    if k: nat :| !Passable(ctx, w, k) {
      TurnsIff(ctx, w, k + 1);
      assert Turns(ctx, w, k + 1) == None;
    }
    if n: nat :| Turns(ctx, w, n) == None {
      TurnsIff(ctx, w, n);
      assert (exists k :: 0 <= k < n && !Passable(ctx, w, k)) || !Passable(ctx, w, n);
    }
  }

  lemma {:induction false} BelowGrows(ctx: Context, token: Id, j: nat, k: nat)
    requires j <= k
    ensures Below(ctx, token, j) <= Below(ctx, token, k)
  {
    if j < k {
      BelowGrows(ctx, token, j, k - 1);
    }
  }

  /** After a repeat the chain goes on as before. */
  lemma {:induction false} AncestorRepeats(ctx: Context, token: Id, a: nat, b: nat, k: nat)
    requires a < b <= k && Ancestor(ctx, token, a) == Ancestor(ctx, token, b)
    ensures Ancestor(ctx, token, k) == Ancestor(ctx, token, k - (b - a))
  {
    if k > b {
      AncestorRepeats(ctx, token, a, b, k - 1);
    }
  }

  /** Among more tokens of the chain than there are records, two are the same. */
  lemma ChainRepeats(ctx: Context, token: Id, from: nat) returns (a: nat, b: nat)
    requires forall k :: from <= k <= from + |ctx.tokens.Keys| ==>
               Ancestor(ctx, token, k).Some? && Ancestor(ctx, token, k).value in ctx.tokens
    ensures from <= a < b <= from + |ctx.tokens.Keys| && Ancestor(ctx, token, a) == Ancestor(ctx, token, b)
  {
    var n := |ctx.tokens.Keys|;
    var chain := seq(n + 1, i requires 0 <= i <= n => Ancestor(ctx, token, from + i).value);
    if NoDup(chain) {
      NoDupBound(chain, ctx.tokens.Keys);
      assert false;
    }
    var i, j :| 0 <= i < j < |chain| && chain[i] == chain[j];
    a, b := from + i, from + j;
  }

  lemma PassableRepeats(ctx: Context, w: Walker, j: nat, k: nat)
    requires w.hops <= j < k && Passable(ctx, w, j) && Ancestor(ctx, w.token, j) == Ancestor(ctx, w.token, k)
    requires Below(ctx, w.token, j) <= Below(ctx, w.token, k) && Below(ctx, w.token, j + 1) <= Below(ctx, w.token, k)
    requires |w.visited + Below(ctx, w.token, k)| <= ctx.breadth
    ensures Passable(ctx, w, k)
  {
    assert Below(ctx, w.token, k + 1) == Below(ctx, w.token, k);
  }

  lemma {:induction false} PassableBeyond(ctx: Context, w: Walker, a: nat, b: nat, k: nat)
    requires w.hops <= a < b <= LookAhead(ctx, w) && Ancestor(ctx, w.token, a) == Ancestor(ctx, w.token, b)
    requires forall i :: 0 <= i <= LookAhead(ctx, w) ==> Passable(ctx, w, i)
    ensures Passable(ctx, w, k)
    decreases k
  {
    hide Passable, Below, Ancestor;
    if k > LookAhead(ctx, w) {
      var j := k - (b - a);
      AncestorRepeats(ctx, w.token, a, b, k);
      PassableBeyond(ctx, w, a, b, j);
      PassableBeyond(ctx, w, a, b, k - 1);
      RoomAt(ctx, w, k - 1);
      BelowGrows(ctx, w.token, j, k);
      BelowGrows(ctx, w.token, j + 1, k);
      PassableRepeats(ctx, w, j, k);
    }
  }

  /**
   Exactly when a delegation walk ends: some token within `LookAhead` links above leaves the
   records, is met past the hops without being a node id, or brings one node too many.
   */
  lemma WalkEndsIff(ctx: Context, w: Walker)
    requires |w.visited| <= ctx.breadth && w.token in ctx.tokens
    ensures Ends(ctx, w) <==> exists k :: 0 <= k <= LookAhead(ctx, w) && !Passable(ctx, w, k)
  {
    hide Passable, Turns;
    EndsIffStopped(ctx, w);
    if forall k :: 0 <= k <= LookAhead(ctx, w) ==> Passable(ctx, w, k) {
      forall k: nat
        ensures Passable(ctx, w, k)
      {
        PassableAll(ctx, w, k);
      }
    }
  }

  lemma PassableAll(ctx: Context, w: Walker, k: nat)
    requires forall i :: 0 <= i <= LookAhead(ctx, w) ==> Passable(ctx, w, i)
    ensures Passable(ctx, w, k)
  {
    var from := if w.hops > 0 then w.hops else 0;
    forall i | from <= i <= from + |ctx.tokens.Keys|
      ensures Ancestor(ctx, w.token, i).Some? && Ancestor(ctx, w.token, i).value in ctx.tokens
    {
      assert Passable(ctx, w, i);
    }
    var a, b := ChainRepeats(ctx, w.token, from);
    PassableBeyond(ctx, w, a, b, k);
  }

  /**
   The input on which it does not: a stored receipt `r` whose capability token is also called
   `r`, and a record of that token naming itself as parent. Only a breadth of one ends the walk.
   */
  lemma SelfNamedToken(depth: nat, breadth: nat)
    requires breadth >= 1
    ensures var ctx := Context(map["r" := Receipt([], Some("r"), None)], map["r" := Some("r")], "r", depth, breadth);
            Ends(ctx, Walker({"r"}, depth, "r")) <==> breadth == 1
  {
    var ctx := Context(map["r" := Receipt([], Some("r"), None)], map["r" := Some("r")], "r", depth, breadth);
    var w := Walker({"r"}, depth, "r");
    EndsIffStopped(ctx, w);
    forall k: nat
      ensures Passable(ctx, w, k) <==> breadth >= 2
    {
      SelfChain(ctx, k);
      SelfChain(ctx, k + 1);
      assert DelegationId("r") != "r";
      assert {"r"} + {DelegationId("r")} == {"r", DelegationId("r")};
      assert |{"r", DelegationId("r")}| == 2;
    }
    assert breadth == 1 ==> !Passable(ctx, w, 0);
  }

  lemma {:induction false} SelfChain(ctx: Context, k: nat)
    requires ctx.tokens == map["r" := Some("r")]
    ensures Ancestor(ctx, "r", k) == Some("r")
    ensures Below(ctx, "r", k) == if k == 0 then {} else {DelegationId("r")}
  {
    if k > 0 {
      SelfChain(ctx, k - 1);
    }
  }

  // ---- Whole resolutions --------------------------------------------------

  /** The chain above leaves the records, or past the depth meets a token id no node can have. */
  ghost predicate Leaves(ctx: Context, token: Id) {
    exists k: nat ::
      var a := Ancestor(ctx, token, k);
      a.None? || a.value !in ctx.tokens || (k >= ctx.depth && !IsNodeId(ctx, a.value))
  }

  /** Every capability cited within the depth has such a chain. */
  ghost predicate WalksLeave(ctx: Context) {
    forall r :: r in ctx.corpus && WithinDepth(ctx, r) && ctx.corpus[r].capability.Some? ==>
      Leaves(ctx, ctx.corpus[r].capability.value)
  }

  /** Token ids no node can have. */
  ghost predicate Separate(ctx: Context) {
    forall t :: t in ctx.tokens ==> !IsNodeId(ctx, t)
  }

  /** Delegation records without a cycle. */
  ghost predicate Descending(ctx: Context, rank: Id -> nat) {
    forall t :: t in ctx.tokens && ctx.tokens[t].Some? && ctx.tokens[t].value in ctx.tokens ==>
      rank(ctx.tokens[t].value) < rank(t)
  }

  lemma SeparateWalksLeave(ctx: Context)
    requires Separate(ctx)
    ensures WalksLeave(ctx)
  {
    forall token
      ensures Leaves(ctx, token)
    {
      var a := Ancestor(ctx, token, ctx.depth);
      assert a.None? || a.value !in ctx.tokens || !IsNodeId(ctx, a.value);
    }
  }

  lemma {:induction false} DescendingLeaves(ctx: Context, rank: Id -> nat, token: Id, k: nat)
    requires Descending(ctx, rank) && Ancestor(ctx, token, k).Some?
    ensures Leaves(ctx, token)
    decreases rank(Ancestor(ctx, token, k).value)
  {
    var a := Ancestor(ctx, token, k).value;
    if a in ctx.tokens {
      var up := Ancestor(ctx, token, k + 1);
      assert up == ctx.tokens[a];
      if up.Some? && up.value in ctx.tokens {
        DescendingLeaves(ctx, rank, token, k + 1);
      } else {
        assert up.None? || up.value !in ctx.tokens;
      }
    }
  }

  lemma DescendingWalksLeave(ctx: Context, rank: Id -> nat)
    requires Descending(ctx, rank)
    ensures WalksLeave(ctx)
  {
    forall token
      ensures Leaves(ctx, token)
    {
      assert Ancestor(ctx, token, 0) == Some(token);
      DescendingLeaves(ctx, rank, token, 0);
    }
  }

  lemma {:induction false} BelowAreNodeIds(ctx: Context, token: Id, k: nat)
    requires forall j :: 0 <= j < k ==> Ancestor(ctx, token, j).Some? && Ancestor(ctx, token, j).value in ctx.tokens
    ensures forall id :: id in Below(ctx, token, k) ==> IsNodeId(ctx, id)
  {
    if k > 0 {
      BelowAreNodeIds(ctx, token, k - 1);
    }
  }

  /** A walk over node ids ends when its chain leaves. */
  lemma LeavingWalkEnds(ctx: Context, w: Walker)
    requires |w.visited| <= ctx.breadth && w.token in ctx.tokens && w.hops <= ctx.depth
    requires Leaves(ctx, w.token) && forall id :: id in w.visited ==> IsNodeId(ctx, id)
    ensures Ends(ctx, w)
  {
    hide IsNodeId;
    EndsIffStopped(ctx, w);
    if forall k: nat :: Passable(ctx, w, k) {
      var k: nat :|
        var a := Ancestor(ctx, w.token, k);
        a.None? || a.value !in ctx.tokens || (k >= ctx.depth && !IsNodeId(ctx, a.value));
      assert Passable(ctx, w, k);
      forall j | 0 <= j < k
        ensures Ancestor(ctx, w.token, j).Some? && Ancestor(ctx, w.token, j).value in ctx.tokens
      {
        assert Passable(ctx, w, j);
      }
      BelowAreNodeIds(ctx, w.token, k);
      assert false;
    }
  }
}
