/** The bounded walk up delegation records (`_walk_delegation` in `raucle/chain_graph.py`). */
module GraphWalk {
  import opened Basics
  import opened ChainGraph
  import opened GraphTurns

  /** The link the walk is about to state. */
  ghost predicate Citing(ctx: Context, kind: EdgeKind, src: Id, token: Id, receipt: Id, prev: Id) {
    && token in ctx.tokens
    && if kind == DelegationLink
       then src == receipt && receipt in ctx.corpus && ctx.corpus[receipt].capability == Some(token)
       else
         && kind == DelegationParent && src == DelegationId(prev)
         && prev in ctx.tokens && ctx.tokens[prev] == Some(token)
  }

  function Waiting(kind: EdgeKind, src: Id): set<Id> {
    if kind == DelegationParent then {src} else {}
  }

  lemma OwedByToken(ctx: Context, g: Graph, src: Id, prev: Id)
    requires NodesOk(ctx, g) && src == DelegationId(prev) && prev in ctx.tokens && Owes(ctx, g, src)
    ensures ctx.tokens[prev].Some?
    ensures Owed(ctx, g, src)
            == Edge(DelegationParent, src, DelegationId(ctx.tokens[prev].value),
                    Some(ctx.tokens[prev].value in ctx.tokens))
  {
    assert NodeOk(ctx, src, g.nodes[src]);
    DelegationIdInjective(prev, g.nodes[src].token);
  }

  lemma JustifiedCite(ctx: Context, kind: EdgeKind, src: Id, token: Id, receipt: Id, prev: Id)
    requires Citing(ctx, kind, src, token, receipt, prev)
    ensures Justified(ctx, Edge(kind, src, DelegationId(token), Some(true)))
  {
  }

  lemma Cited(ctx: Context, g: Graph, b: Graph, kind: EdgeKind, src: Id, token: Id, receipt: Id, prev: Id,
              waiting: set<Id>)
    requires Citing(ctx, kind, src, token, receipt, prev) && Kept(ctx, g, waiting)
    requires b == g.(edges := g.edges + [Edge(kind, src, DelegationId(token), Some(true))])
    requires Named(g, DelegationId(token))
    ensures SideGrowth(g, b) && Kept(ctx, b, waiting - Waiting(kind, src))
    ensures Edge(kind, src, DelegationId(token), Some(true)) in b.edges
  {
    hide Justified, Named, NamedBut, SideGrowth, Grew, NodeOk, CutsOk, MissingOk, EdgesOk, DelegationsLinked;
    var e := Edge(kind, src, DelegationId(token), Some(true));
    JustifiedCite(ctx, kind, src, token, receipt, prev);
    if kind == DelegationParent && Owes(ctx, g, src) {
      OwedByToken(ctx, g, src, prev);
    }
    EdgeAdded(ctx, g, b, e, waiting, Waiting(kind, src));
  }

  lemma DelegationNodeOk(ctx: Context, token: Id)
    requires token in ctx.tokens
    ensures NodeOk(ctx, DelegationId(token), DelegationNode(DelegationId(token), token))
  {
  }

  /** The edge the walk ends with when it cannot add the token's node. */
  method StopAt(state: GraphState, ghost ctx: Context, kind: EdgeKind, src: Id, token: Id,
                ghost receipt: Id, ghost prev: Id, c: Cut)
    requires state.Valid() && Kept(ctx, state.View(), Waiting(kind, src))
    requires Citing(ctx, kind, src, token, receipt, prev)
    requires c in state.pruned && c.kind == ADelegation && (c.reference == token || c.reference == DelegationId(token))
    modifies state`edges
    ensures state.Valid() && Kept(ctx, state.View(), {}) && SideGrowth(old(state.View()), state.View())
    ensures Edge(kind, src, DelegationId(token), Some(true)) in state.edges
  {
    hide Kept, SideGrowth, Citing;
    ghost var g := state.View();
    state.AddEdge(kind, src, DelegationId(token), Some(true));
    assert Named(g, DelegationId(token)) by {
      assert c in g.pruned;
    }
    Cited(ctx, g, state.View(), kind, src, token, receipt, prev, Waiting(kind, src));
    assert Waiting(kind, src) - Waiting(kind, src) == {};
  }

  /** State the link to a node of the graph, unless it links the node to itself. */
  method Link(state: GraphState, ghost ctx: Context, kind: EdgeKind, src: Id, token: Id,
              ghost receipt: Id, ghost prev: Id)
    requires state.Valid() && Kept(ctx, state.View(), Waiting(kind, src) + {DelegationId(token)})
    requires Citing(ctx, kind, src, token, receipt, prev) && DelegationId(token) in state.nodes
    modifies state`edges
    ensures state.Valid() && Kept(ctx, state.View(), {DelegationId(token)})
    ensures SideGrowth(old(state.View()), state.View())
    ensures state.nodes == old(state.nodes)
    ensures src == DelegationId(token) || Edge(kind, src, DelegationId(token), Some(true)) in state.edges
  {
    hide Kept, SideGrowth, Citing;
    ghost var g := state.View();
    var node := DelegationId(token);
    if src != node {
      state.AddEdge(kind, src, node, Some(true));
      Cited(ctx, g, state.View(), kind, src, token, receipt, prev, Waiting(kind, src) + {node});
      assert Waiting(kind, src) + {node} - Waiting(kind, src) == {node};
    } else {
      assert Waiting(kind, src) + {node} == {node};
      SideSelf(g);
    }
  }

  lemma SideSelf(g: Graph)
    ensures SideGrowth(g, g)
  {
  }

  /** Add the token's node, or record that the graph is full. */
  method AddToken(state: GraphState, ghost ctx: Context, token: Id, ghost waiting: set<Id>) returns (ok: bool)
    requires state.Valid() && state.breadth == ctx.breadth && Kept(ctx, state.View(), waiting) && token in ctx.tokens
    modifies state
    ensures state.Valid() && SideGrowth(old(state.View()), state.View()) && state.edges == old(state.edges)
    ensures ok == (DelegationId(token) in old(state.visited) || |old(state.visited)| < ctx.breadth)
    ensures state.visited == old(state.visited) + if ok then {DelegationId(token)} else {}
    ensures ok ==> Kept(ctx, state.View(), waiting + {DelegationId(token)}) && DelegationId(token) in state.nodes
    ensures !ok ==>
              Kept(ctx, state.View(), waiting) && Cut(ADelegation, DelegationId(token), BreadthLimit) in state.pruned
  {
    hide Kept, SideGrowth, NodeOk, NodesOk;
    var node := DelegationNode(DelegationId(token), token);
    ghost var g := state.View();
    ok := state.AddNode(node);
    DelegationNodeOk(ctx, token);
    KeptRoom(ctx, g, waiting);
    if node.id in g.nodes {
      SideSelf(g);
      KeptWeaker(ctx, g, waiting, waiting + {node.id});
    } else if ok {
      NodeAdded(ctx, g, state.View(), node, waiting);
    } else {
      CutAdded(ctx, g, state.View(), Cut(ADelegation, node.id, BreadthLimit), waiting);
    }
  }

  lemma KeptRoom(ctx: Context, g: Graph, waiting: set<Id>)
    requires Kept(ctx, g, waiting)
    ensures NodesOk(ctx, g) && |g.nodes| <= ctx.breadth
  {
  }

  lemma KeptWeaker(ctx: Context, g: Graph, few: set<Id>, many: set<Id>)
    requires Kept(ctx, g, few) && few <= many
    ensures Kept(ctx, g, many)
  {
  }

  /** Nothing is owed for a node whose token has no parent. */
  lemma NothingOwed(ctx: Context, g: Graph, token: Id)
    requires Kept(ctx, g, {DelegationId(token)}) && token in ctx.tokens && ctx.tokens[token].None?
    ensures Kept(ctx, g, {})
  {
    if Owes(ctx, g, DelegationId(token)) {
      OwedByToken(ctx, g, DelegationId(token), token);
    }
  }

  /** The parent is not a record: an unknown reference, and an edge that says so. */
  method LinkUnknown(state: GraphState, ghost ctx: Context, token: Id, parent: Id)
    requires state.Valid() && Kept(ctx, state.View(), {DelegationId(token)})
    requires token in ctx.tokens && ctx.tokens[token] == Some(parent) && parent !in ctx.tokens
    modifies state
    ensures state.Valid() && Kept(ctx, state.View(), {}) && SideGrowth(old(state.View()), state.View())
    ensures state.visited == old(state.visited)
  {
    hide Kept, SideGrowth, Justified, NodesOk;
    ghost var g := state.View();
    state.UnknownRef(ADelegation, parent);
    ghost var g1 := state.View();
    var e := Edge(DelegationParent, DelegationId(token), DelegationId(parent), Some(false));
    MissingAdded(ctx, g, g1, Missing(ADelegation, parent), {DelegationId(token)});
    state.AddEdge(e.kind, e.src, e.dst, e.found);
    assert Missing(ADelegation, parent) in g1.unknown;
    JustifiedUnknown(ctx, token, parent);
    KeptRoom(ctx, g1, {DelegationId(token)});
    if Owes(ctx, g1, DelegationId(token)) {
      OwedByToken(ctx, g1, DelegationId(token), token);
    }
    EdgeAdded(ctx, g1, state.View(), e, {DelegationId(token)}, {DelegationId(token)});
    assert {DelegationId(token)} - {DelegationId(token)} == {};
    SideTransitive(g, g1, state.View());
  }

  lemma JustifiedUnknown(ctx: Context, token: Id, parent: Id)
    requires token in ctx.tokens && ctx.tokens[token] == Some(parent) && parent !in ctx.tokens
    ensures Justified(ctx, Edge(DelegationParent, DelegationId(token), DelegationId(parent), Some(false)))
  {
  }

  /** One hop: the token's node and the link to it, or the reason it was cut. */
  method Visit(state: GraphState, ghost ctx: Context, kind: EdgeKind, src: Id, token: Id, hops: int,
               ghost receipt: Id, ghost prev: Id)
    returns (added: bool)
    requires state.Valid() && state.breadth == ctx.breadth && Kept(ctx, state.View(), Waiting(kind, src))
    requires Citing(ctx, kind, src, token, receipt, prev) && (hops <= 0 ==> OutOfHops(ctx, token))
    modifies state
    ensures state.Valid() && SideGrowth(old(state.View()), state.View())
    ensures Kept(ctx, state.View(), if added then {DelegationId(token)} else {})
    ensures added == !Blocked(ctx, Walker(old(state.visited), hops, token))
    ensures state.visited == old(state.visited) + if added then {DelegationId(token)} else {}
    ensures src == DelegationId(token) || Edge(kind, src, DelegationId(token), Some(true)) in state.edges
  {
    hide Kept, SideGrowth, NodesOk, Waiting, OutOfHops;
    ghost var g := state.View();
    if hops <= 0 && token !in state.visited {
      state.Prune(ADelegation, token, DepthLimit);
      ghost var g1 := state.View();
      CutAdded(ctx, g, g1, Cut(ADelegation, token, DepthLimit), Waiting(kind, src));
      StopAt(state, ctx, kind, src, token, receipt, prev, Cut(ADelegation, token, DepthLimit));
      SideTransitive(g, g1, state.View());
      return false;
    }
    added := AddToken(state, ctx, token, Waiting(kind, src));
    ghost var g1 := state.View();
    if added {
      Link(state, ctx, kind, src, token, receipt, prev);
    } else {
      StopAt(state, ctx, kind, src, token, receipt, prev, Cut(ADelegation, DelegationId(token), BreadthLimit));
    }
    SideTransitive(g, g1, state.View());
  }

  lemma EdgeStays(a: Graph, b: Graph, e: Edge)
    requires SideGrowth(a, b)
    ensures e in a.edges ==> e in b.edges
  {
  }

  /** Spent hops: the receipt's links and the `k` delegation links from its capability use up the depth. */
  lemma HopsSpent(ctx: Context, receipt: Id, hop: nat, k: nat, token: Id)
    requires receipt in ctx.corpus && ctx.corpus[receipt].capability.Some? && Reach(ctx, hop, receipt)
    requires Ancestor(ctx, ctx.corpus[receipt].capability.value, k) == Some(token)
    ensures ctx.depth - hop - k <= 0 ==> OutOfHops(ctx, token)
  {
  }

  /** The walk from a receipt's capability ends: `visited` holds the ids of the graph when it starts. */
  ghost predicate WalkEnds(ctx: Context, visited: set<Id>, receipt: Id, hop: nat) {
    receipt in ctx.corpus && ctx.corpus[receipt].capability.GetOr("") != ""
    && ctx.corpus[receipt].capability.value in ctx.tokens ==>
      Ends(ctx, Walker(visited, ctx.depth - hop, ctx.corpus[receipt].capability.value))
  }

  lemma LastHop(ctx: Context, w: Walker, k: nat, token: Id)
    requires Turns(ctx, w, k).Some? && Turns(ctx, w, k).value.token == token && token in ctx.tokens
    requires Blocked(ctx, Turns(ctx, w, k).value) || ctx.tokens[token].None? || ctx.tokens[token].value !in ctx.tokens
    requires Ends(ctx, w)
    ensures Walked(ctx, w) == IdsAfter(ctx, Turns(ctx, w, k).value)
  {
    WalkedTo(ctx, w, k);
  }

  lemma TurnsStart(ctx: Context, token: Id, w: Walker)
    ensures Turns(ctx, w, 0) == Some(w) && Ancestor(ctx, token, 0) == Some(token)
  {
  }

  /** A hop that was not cut, to a recorded parent, is a turn, and not the last. */
  lemma AnotherTurn(ctx: Context, w: Walker, k: nat, last: nat, token: Id, parent: Id)
    requires Turns(ctx, w, k).Some? && Turns(ctx, w, k).value.token == token
    requires !Blocked(ctx, Turns(ctx, w, k).value)
    requires k < last && Turns(ctx, w, last) == None
    requires token in ctx.tokens && ctx.tokens[token] == Some(parent) && parent in ctx.tokens
    requires Ancestor(ctx, w.token, k) == Some(token)
    ensures var v := Turns(ctx, w, k).value;
            Turns(ctx, w, k + 1) == Some(Walker(v.visited + {DelegationId(token)}, v.hops - 1, parent))
    ensures k + 1 < last && Ancestor(ctx, w.token, k + 1) == Some(parent)
  {
  }

  /** The ids of the graph after the walk from a receipt, if it has one. */
  ghost function AfterWalk(ctx: Context, visited: set<Id>, receipt: Id, hop: nat): set<Id>
    requires WalkEnds(ctx, visited, receipt, hop)
  {
    if receipt in ctx.corpus && ctx.corpus[receipt].capability.GetOr("") != ""
       && ctx.corpus[receipt].capability.value in ctx.tokens
    then Walked(ctx, Walker(visited, ctx.depth - hop, ctx.corpus[receipt].capability.value))
    else visited
  }

  /**
   `_walk_delegation` from a receipt's capability, on every state from which it ends
   (`GraphTurns.WalkEndsIff` says which): it leaves every delegation node with the edge to its parent.
   */
  method WalkDelegation(state: GraphState, ctx: Context, receipt: Id, capability: Id, hop: nat)
    requires state.Valid() && state.breadth == ctx.breadth && Kept(ctx, state.View(), {})
    requires Citing(ctx, DelegationLink, receipt, capability, receipt, receipt) && Reach(ctx, hop, receipt)
    requires Ends(ctx, Walker(state.visited, ctx.depth - hop, capability))
    modifies state
    ensures state.Valid() && Kept(ctx, state.View(), {}) && SideGrowth(old(state.View()), state.View())
    ensures receipt == DelegationId(capability)
            || Edge(DelegationLink, receipt, DelegationId(capability), Some(true)) in state.edges
    ensures state.visited == Walked(ctx, Walker(old(state.visited), ctx.depth - hop, capability))
  {
    hide Walked;
    hide Kept, SideGrowth, NodesOk, OutOfHops, Reach, Turns, Turn, Blocked, Ancestor;
    TurnsStart(ctx, capability, Walker(state.visited, ctx.depth - hop, capability));
    ghost var start := state.View();
    ghost var prev := receipt;
    ghost var first := Edge(DelegationLink, receipt, DelegationId(capability), Some(true));
    var hops: int := ctx.depth - hop;
    ghost var w, k := Walker(state.visited, hops, capability), 0;
    ghost var last: nat :| Turns(ctx, w, last) == None;
    var kind, src, token := DelegationLink, receipt, capability;
    SideSelf(start);
    while true
      invariant state.Valid() && Kept(ctx, state.View(), Waiting(kind, src)) && SideGrowth(start, state.View())
      invariant Citing(ctx, kind, src, token, receipt, prev)
      invariant kind == DelegationLink ==> token == capability
      invariant hops == ctx.depth - hop - k && Ancestor(ctx, capability, k) == Some(token)
      invariant Turns(ctx, w, k) == Some(Walker(state.visited, hops, token)) && k < last
      invariant kind != DelegationLink ==> receipt == DelegationId(capability) || first in state.edges
      decreases last - k
    {
      ghost var g := state.View();
      HopsSpent(ctx, receipt, hop, k, token);
      var added := Visit(state, ctx, kind, src, token, hops, receipt, prev);
      ghost var g1 := state.View();
      SideTransitive(start, g, g1);
      EdgeStays(g, g1, first);
      if !added {
        LastHop(ctx, w, k, token);
        return;
      }
      match ctx.tokens[token] {
        case None =>
          NothingOwed(ctx, g1, token);
          LastHop(ctx, w, k, token);
          return;
        case Some(parent) =>
          if parent !in ctx.tokens {
            LinkUnknown(state, ctx, token, parent);
            SideTransitive(start, g1, state.View());
            EdgeStays(g1, state.View(), first);
            LastHop(ctx, w, k, token);
            return;
          }
          AnotherTurn(ctx, w, k, last, token, parent);
          prev, k := token, k + 1;
          kind, src, token, hops := DelegationParent, DelegationId(token), parent, hops - 1;
      }
    }
  }
}
