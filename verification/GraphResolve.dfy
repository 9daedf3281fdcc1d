/** The worklist of `resolve_chain_graph` (`raucle/chain_graph.py`), and what the resulting graph promises. */
module GraphResolve {
  import opened Basics
  import opened ChainGraph
  import opened GraphWalk

  // ---- One receipt --------------------------------------------------------

  /** Every link a receipt cites is an edge. */
  ghost predicate ReceiptLinked(ctx: Context, g: Graph, r: Id) {
    r in ctx.corpus &&
    var receipt := ctx.corpus[r];
    && (forall p :: p in receipt.parents ==> Edge(ParentLink, r, p, None) in g.edges)
    && (receipt.capability.GetOr("") != "" ==>
          var c := receipt.capability.value;
          r == DelegationId(c) || Edge(DelegationLink, r, DelegationId(c), Some(c in ctx.tokens)) in g.edges)
    && (receipt.policy.Some? ==>
          && Edge(PolicyBinding, r, PolicyId(r), Some(true)) in g.edges
          && forall a :: a in receipt.policy.value ==> Edge(Deployment, r, a, Some(true)) in g.edges)
  }

  ghost predicate ReceiptsLinked(ctx: Context, g: Graph, waiting: set<Id>) {
    forall r :: r in g.nodes && g.nodes[r].ReceiptNode? && r !in waiting ==> ReceiptLinked(ctx, g, r)
  }

  /** Growth that adds no receipt but `r`, and no parent link but those of `r`. */
  ghost predicate GrowthAt(a: Graph, b: Graph, r: Id, parents: seq<Id>) {
    && Grew(a, b)
    && (forall id :: id in b.nodes && b.nodes[id].ReceiptNode? && id != r ==> id in a.nodes)
    && (forall e :: e in b.edges && e.kind == ParentLink ==> e in a.edges || (e.src == r && e.dst in parents))
  }

  lemma SideIsGrowth(a: Graph, b: Graph, c: Graph, r: Id, parents: seq<Id>)
    requires GrowthAt(a, b, r, parents) && SideGrowth(b, c)
    ensures GrowthAt(a, c, r, parents)
  {
  }

  lemma GrowthKeepsLinked(ctx: Context, a: Graph, b: Graph, r: Id, parents: seq<Id>, waiting: set<Id>)
    requires GrowthAt(a, b, r, parents) && ReceiptsLinked(ctx, a, waiting) && r in waiting
    ensures ReceiptsLinked(ctx, b, waiting)
  {
  }

  /** State the parent links. */
  method LinkParents(state: GraphState, ctx: Context, r: Id)
    requires state.Valid() && Kept(ctx, state.View(), {}) && r in ctx.corpus && WithinDepth(ctx, r)
    modifies state`edges
    ensures state.Valid() && Kept(ctx, state.View(), {})
    ensures GrowthAt(old(state.View()), state.View(), r, ctx.corpus[r].parents)
    ensures forall p :: p in ctx.corpus[r].parents ==> Edge(ParentLink, r, p, None) in state.edges
  {
    hide Kept, WithinDepth;
    ghost var g := state.View();
    var parents := ctx.corpus[r].parents;
    for i := 0 to |parents|
      invariant state.Valid() && Kept(ctx, state.View(), {}) && GrowthAt(g, state.View(), r, parents)
      invariant forall p :: p in parents[..i] ==> Edge(ParentLink, r, p, None) in state.edges
    {
      ghost var before := state.View();
      assert parents[..i + 1] == parents[..i] + [parents[i]];
      assert parents[i] in parents;
      state.AddEdge(ParentLink, r, parents[i], None);
      ParentEdgeAdded(ctx, before, state.View(), r, parents[i]);
    }
    assert parents[..|parents|] == parents;
  }

  lemma ParentEdgeAdded(ctx: Context, g: Graph, b: Graph, r: Id, p: Id)
    requires Kept(ctx, g, {}) && r in ctx.corpus && WithinDepth(ctx, r) && p in ctx.corpus[r].parents
    requires b == g.(edges := g.edges + [Edge(ParentLink, r, p, None)])
    ensures Kept(ctx, b, {})
  {
    EdgeAdded(ctx, g, b, Edge(ParentLink, r, p, None), {}, {});
  }

  /** The ids of the graph after `add_node`. */
  function AddId(breadth: nat, visited: set<Id>, id: Id): set<Id> {
    if id in visited || |visited| < breadth then visited + {id} else visited
  }

  function AddIds(breadth: nat, visited: set<Id>, ids: seq<Id>): set<Id> {
    if ids == [] then visited
    else AddId(breadth, AddIds(breadth, visited, ids[..|ids| - 1]), ids[|ids| - 1])
  }

  /** The ids of the graph after the policy of a receipt is bound. */
  function AfterBind(ctx: Context, visited: set<Id>, r: Id): set<Id> {
    if r in ctx.corpus && ctx.corpus[r].policy.Some?
    then AddIds(ctx.breadth, AddId(ctx.breadth, visited, PolicyId(r)), ctx.corpus[r].policy.value)
    else visited
  }

  /** A receipt of the corpus joins the graph. */
  predicate Joins(ctx: Context, visited: set<Id>, r: Id) {
    r in ctx.corpus && (r in visited || |visited| < ctx.breadth)
  }

  /** The ids of the graph after a receipt is processed. */
  ghost function AfterReceipt(ctx: Context, visited: set<Id>, r: Id, hop: nat): set<Id>
    requires Joins(ctx, visited, r) ==> WalkEnds(ctx, visited + {r}, r, hop)
  {
    if Joins(ctx, visited, r) then AfterBind(ctx, AfterWalk(ctx, visited + {r}, r, hop), r) else visited
  }

  /** State the capability link and walk the delegations above it. */
  method LinkCapability(state: GraphState, ctx: Context, r: Id, hop: nat)
    requires state.Valid() && state.breadth == ctx.breadth && Kept(ctx, state.View(), {})
    requires r in ctx.corpus && Reach(ctx, hop, r) && WalkEnds(ctx, state.visited, r, hop)
    modifies state
    ensures state.Valid() && Kept(ctx, state.View(), {}) && SideGrowth(old(state.View()), state.View())
    ensures ctx.corpus[r].capability.GetOr("") != "" ==>
              var c := ctx.corpus[r].capability.value;
              r == DelegationId(c) || Edge(DelegationLink, r, DelegationId(c), Some(c in ctx.tokens)) in state.edges
    ensures state.visited == AfterWalk(ctx, old(state.visited), r, hop)
  {
    hide Kept, SideGrowth;
    ghost var g := state.View();
    SideSelf(g);
    if ctx.corpus[r].capability.GetOr("") != "" {
      var c := ctx.corpus[r].capability.value;
      if c !in ctx.tokens {
        state.UnknownRef(ADelegation, c);
        ghost var g1 := state.View();
        MissingAdded(ctx, g, g1, Missing(ADelegation, c), {});
        state.AddEdge(DelegationLink, r, DelegationId(c), Some(false));
        CapabilityUnknown(ctx, g1, state.View(), r, c);
        SideTransitive(g, g1, state.View());
      } else {
        WalkDelegation(state, ctx, r, c, hop);
      }
    }
  }

  lemma CapabilityUnknown(ctx: Context, g: Graph, b: Graph, r: Id, c: Id)
    requires Kept(ctx, g, {}) && r in ctx.corpus && ctx.corpus[r].capability == Some(c) && c !in ctx.tokens
    requires Missing(ADelegation, c) in g.unknown
    requires b == g.(edges := g.edges + [Edge(DelegationLink, r, DelegationId(c), Some(false))])
    ensures Kept(ctx, b, {}) && SideGrowth(g, b)
  {
    var e := Edge(DelegationLink, r, DelegationId(c), Some(false));
    assert Named(g, e.dst) by {
      assert Missing(ADelegation, c) in g.unknown;
    }
    EdgeAdded(ctx, g, b, e, {}, {});
  }

  lemma FullOk(ctx: Context, node: Node)
    requires NodeOk(ctx, node.id, node)
    ensures CutOk(ctx, Cut(KindOf(node), node.id, BreadthLimit))
  {
    hide IsNodeId, WithinDepth;
    if node.DelegationNode? {
      assert NodeOk(ctx, node.id, DelegationNode(node.id, node.token));
    }
  }

  /** Add a policy or audit node, or record that the graph is full; its id is named either way. */
  method AddLeaf(state: GraphState, ghost ctx: Context, node: Node)
    requires state.Valid() && state.breadth == ctx.breadth && Kept(ctx, state.View(), {})
    requires NodeOk(ctx, node.id, node) && (node.PolicyNode? || node.AuditNode?)
    modifies state
    ensures state.Valid() && Kept(ctx, state.View(), {}) && SideGrowth(old(state.View()), state.View())
    ensures Named(state.View(), node.id) && state.edges == old(state.edges)
    ensures state.visited == AddId(ctx.breadth, old(state.visited), node.id)
  {
    hide Kept, SideGrowth, NodesOk, NodeOk;
    ghost var g := state.View();
    KeptRoom(ctx, g, {});
    SideSelf(g);
    FullOk(ctx, node);
    var ok := state.AddNode(node);
    if node.id !in g.nodes {
      if ok {
        NodeAdded(ctx, g, state.View(), node, {});
      } else {
        CutAdded(ctx, g, state.View(), Cut(KindOf(node), node.id, BreadthLimit), {});
        assert Cut(KindOf(node), node.id, BreadthLimit) in state.View().pruned;
      }
    }
  }

  /** An edge whose target is named, added before or after the target. */
  lemma LeafEdge(ctx: Context, g: Graph, b: Graph, kind: EdgeKind, r: Id, dst: Id)
    requires Kept(ctx, g, {}) && Named(g, dst) && (kind == PolicyBinding || kind == Deployment)
    requires b == g.(edges := g.edges + [Edge(kind, r, dst, Some(true))])
    requires Justified(ctx, Edge(kind, r, dst, Some(true)))
    ensures Kept(ctx, b, {}) && SideGrowth(g, b)
  {
    EdgeAdded(ctx, g, b, Edge(kind, r, dst, Some(true)), {}, {});
  }

  lemma PolicyNodeOk(ctx: Context, r: Id)
    requires r in ctx.corpus && ctx.corpus[r].policy.Some?
    ensures NodeOk(ctx, PolicyId(r), PolicyNode(PolicyId(r)))
  {
  }

  lemma AuditNodeOk(ctx: Context, r: Id, a: Id)
    requires r in ctx.corpus && ctx.corpus[r].policy.Some? && a in ctx.corpus[r].policy.value
    ensures NodeOk(ctx, a, AuditNode(a))
  {
  }

  /** The edge to the policy node first, then the node: the same graph as the other order. */
  lemma EdgeThenLeaf(ctx: Context, g: Graph, b: Graph, r: Id)
    requires Kept(ctx, g, {}) && r in ctx.corpus && ctx.corpus[r].policy.Some?
    requires var g' := g.(edges := g.edges + [Edge(PolicyBinding, r, PolicyId(r), Some(true))]);
             b == if PolicyId(r) in g.nodes then g'
                  else if |g.nodes| < ctx.breadth then g'.(nodes := g.nodes[PolicyId(r) := PolicyNode(PolicyId(r))])
                  else g'.(pruned := g.pruned + [Cut(APolicy, PolicyId(r), BreadthLimit)], truncated := true)
    ensures Kept(ctx, b, {}) && SideGrowth(g, b)
  {
    hide NodesOk, NodeOk, Kept, SideGrowth;
    var node := PolicyNode(PolicyId(r));
    var g1 := b.(edges := g.edges);
    PolicyNodeOk(ctx, r);
    KeptRoom(ctx, g, {});
    SideSelf(g);
    if node.id !in g.nodes {
      if |g.nodes| < ctx.breadth {
        NodeAdded(ctx, g, g1, node, {});
      } else {
        CutAdded(ctx, g, g1, Cut(APolicy, node.id, BreadthLimit), {});
        assert Cut(APolicy, node.id, BreadthLimit) in g1.pruned;
      }
    }
    LeafEdge(ctx, g1, b, PolicyBinding, r, node.id);
    SideTransitive(g, g1, b);
  }

  /** `_bind_policy_deployments`. */
  method BindPolicy(state: GraphState, ctx: Context, r: Id)
    requires state.Valid() && state.breadth == ctx.breadth && Kept(ctx, state.View(), {})
    requires r in ctx.corpus && ctx.corpus[r].policy.Some?
    modifies state
    ensures state.Valid() && Kept(ctx, state.View(), {}) && SideGrowth(old(state.View()), state.View())
    ensures Edge(PolicyBinding, r, PolicyId(r), Some(true)) in state.edges
    ensures forall a :: a in ctx.corpus[r].policy.value ==> Edge(Deployment, r, a, Some(true)) in state.edges
    ensures state.visited == AfterBind(ctx, old(state.visited), r)
  {
    hide Kept, SideGrowth, NodeOk, Justified, Named;
    ghost var g := state.View();
    KeptRoom(ctx, g, {});
    state.AddEdge(PolicyBinding, r, PolicyId(r), Some(true));
    var ok := state.AddNode(PolicyNode(PolicyId(r)));
    EdgeThenLeaf(ctx, g, state.View(), r);
    ghost var binding := Edge(PolicyBinding, r, PolicyId(r), Some(true));
    assert binding in state.edges;
    var audits := ctx.corpus[r].policy.value;
    for i := 0 to |audits|
      invariant state.Valid() && Kept(ctx, state.View(), {}) && SideGrowth(g, state.View())
      invariant binding in state.edges
      invariant state.visited == AddIds(ctx.breadth, AddId(ctx.breadth, old(state.visited), PolicyId(r)), audits[..i])
      invariant forall a :: a in audits[..i] ==> Edge(Deployment, r, a, Some(true)) in state.edges
    {
      ghost var before := state.View();
      assert audits[..i + 1] == audits[..i] + [audits[i]];
      assert audits[..i + 1][..i] == audits[..i];
      assert audits[i] in audits;
      AuditNodeOk(ctx, r, audits[i]);
      AddLeaf(state, ctx, AuditNode(audits[i]));
      ghost var middle := state.View();
      state.AddEdge(Deployment, r, audits[i], Some(true));
      DeploymentJustified(ctx, r, audits[i]);
      LeafEdge(ctx, middle, state.View(), Deployment, r, audits[i]);
      SideTransitive(before, middle, state.View());
      SideTransitive(g, before, state.View());
    }
    assert audits[..|audits|] == audits;
  }

  lemma DeploymentJustified(ctx: Context, r: Id, a: Id)
    requires r in ctx.corpus && ctx.corpus[r].policy.Some? && a in ctx.corpus[r].policy.value
    ensures Justified(ctx, Edge(Deployment, r, a, Some(true)))
  {
  }

  // ---- Processing ---------------------------------------------------------

  lemma SideKeepsEdges(a: Graph, b: Graph)
    requires SideGrowth(a, b)
    ensures Grew(a, b)
  {
  }

  lemma ReceiptNodeOk(ctx: Context, r: Id, hop: nat)
    requires r in ctx.corpus && hop <= ctx.depth && Reach(ctx, hop, r)
    ensures NodeOk(ctx, r, ReceiptNode(r)) && WithinDepth(ctx, r)
  {
  }

  /** State everything a receipt of the graph cites. */
  method LinkReceipt(state: GraphState, ctx: Context, r: Id, hop: nat)
    requires state.Valid() && state.breadth == ctx.breadth && Kept(ctx, state.View(), {})
    requires r in ctx.corpus && WithinDepth(ctx, r) && Reach(ctx, hop, r) && ReceiptsLinked(ctx, state.View(), {r})
    requires WalkEnds(ctx, state.visited, r, hop)
    modifies state
    ensures state.Valid() && Kept(ctx, state.View(), {}) && ReceiptsLinked(ctx, state.View(), {})
    ensures GrowthAt(old(state.View()), state.View(), r, ctx.corpus[r].parents)
    ensures state.visited == AfterBind(ctx, AfterWalk(ctx, old(state.visited), r, hop), r)
  {
    hide Kept, SideGrowth, ReceiptsLinked, GrowthAt, WithinDepth, WalkEnds, AfterWalk;
    var receipt := ctx.corpus[r];
    ghost var g0 := state.View();
    LinkParents(state, ctx, r);
    ghost var g1 := state.View();
    LinkCapability(state, ctx, r, hop);
    ghost var g2 := state.View();
    SideIsGrowth(g0, g1, g2, r, receipt.parents);
    SideKeepsEdges(g1, g2);
    SideSelf(g2);
    if receipt.policy.Some? {
      BindPolicy(state, ctx, r);
    }
    ghost var g3 := state.View();
    SideIsGrowth(g0, g2, g3, r, receipt.parents);
    SideKeepsEdges(g2, g3);
    assert ReceiptLinked(ctx, g3, r);
    GrowthKeepsLinked(ctx, g0, g3, r, receipt.parents, {r});
    LinkedDone(ctx, g3, r);
  }

  lemma LinkedDone(ctx: Context, g: Graph, r: Id)
    requires ReceiptsLinked(ctx, g, {r}) && ReceiptLinked(ctx, g, r)
    ensures ReceiptsLinked(ctx, g, {})
  {
  }

  /** What became of a queued id. */
  ghost predicate Processed(ctx: Context, g: Graph, r: Id, parents: seq<Id>) {
    if r !in ctx.corpus then parents == [] && Missing(AReceipt, r) in g.unknown
    else (r in g.nodes && parents == ctx.corpus[r].parents)
         || (parents == [] && Cut(AReceipt, r, BreadthLimit) in g.pruned)
  }

  /** `_process_receipt_node`: the parent hashes still to visit. */
  method ProcessReceipt(state: GraphState, ctx: Context, r: Id, hop: nat) returns (parents: seq<Id>)
    requires state.Valid() && state.breadth == ctx.breadth && Kept(ctx, state.View(), {})
    requires ReceiptsLinked(ctx, state.View(), {}) && hop <= ctx.depth && Reach(ctx, hop, r)
    requires Joins(ctx, state.visited, r) ==> WalkEnds(ctx, state.visited + {r}, r, hop)
    modifies state
    ensures state.Valid() && Kept(ctx, state.View(), {}) && ReceiptsLinked(ctx, state.View(), {})
    ensures GrowthAt(old(state.View()), state.View(), r, parents) && Processed(ctx, state.View(), r, parents)
    ensures state.visited == AfterReceipt(ctx, old(state.visited), r, hop)
    ensures parents == if Joins(ctx, old(state.visited), r) then ctx.corpus[r].parents else []
    ensures r in ctx.corpus && old(state.nodes) == map[] && ctx.breadth > 0 ==>
              r in state.nodes && state.nodes[r] == ReceiptNode(r)
  {
    hide Kept, SideGrowth, ReceiptsLinked, GrowthAt, NodesOk, NodeOk, WithinDepth;
    ghost var g := state.View();
    KeptRoom(ctx, g, {});
    GrowthSelf(g, r);
    if r !in ctx.corpus {
      state.UnknownRef(AReceipt, r);
      WithinByHop(ctx, r, hop);
      MissingAdded(ctx, g, state.View(), Missing(AReceipt, r), {});
      SideIsGrowth(g, g, state.View(), r, []);
      GrowthLinked(ctx, g, state.View(), r, []);
      return [];
    }
    ReceiptNodeOk(ctx, r, hop);
    var ok := state.AddNode(ReceiptNode(r));
    ghost var g1 := state.View();
    if !ok {
      CutAdded(ctx, g, g1, Cut(AReceipt, r, BreadthLimit), {});
      SideIsGrowth(g, g, g1, r, []);
      GrowthLinked(ctx, g, g1, r, []);
      return [];
    }
    parents := ctx.corpus[r].parents;
    if r !in g.nodes {
      NodeAdded(ctx, g, g1, ReceiptNode(r), {});
    }
    AddedGrowth(ctx, g, g1, r);
    assert state.visited == old(state.visited) + {r};
    LinkReceipt(state, ctx, r, hop);
    GrowthTransitive(g, g1, state.View(), r, parents);
    GrowthNodes(g1, state.View(), r, parents);
  }

  lemma GrowthSelf(g: Graph, r: Id)
    ensures GrowthAt(g, g, r, [])
  {
  }

  lemma WithinByHop(ctx: Context, r: Id, hop: nat)
    requires hop <= ctx.depth && Reach(ctx, hop, r)
    ensures WithinDepth(ctx, r)
  {
  }

  lemma GrowthLinked(ctx: Context, a: Graph, b: Graph, r: Id, parents: seq<Id>)
    requires SideGrowth(a, b) && ReceiptsLinked(ctx, a, {})
    ensures ReceiptsLinked(ctx, b, {})
  {
  }

  lemma AddedGrowth(ctx: Context, g: Graph, b: Graph, r: Id)
    requires r in g.nodes ==> b == g
    requires r !in g.nodes ==> b == g.(nodes := g.nodes[r := ReceiptNode(r)])
    requires ReceiptsLinked(ctx, g, {})
    ensures GrowthAt(g, b, r, []) && ReceiptsLinked(ctx, b, {r})
  {
  }

  lemma GrowthTransitive(a: Graph, b: Graph, c: Graph, r: Id, parents: seq<Id>)
    requires GrowthAt(a, b, r, []) && GrowthAt(b, c, r, parents)
    ensures GrowthAt(a, c, r, parents)
  {
  }

  lemma GrowthNodes(a: Graph, b: Graph, r: Id, parents: seq<Id>)
    requires GrowthAt(a, b, r, parents)
    ensures forall id :: id in a.nodes ==> id in b.nodes && b.nodes[id] == a.nodes[id]
  {
  }
}
