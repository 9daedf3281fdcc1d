/** The working state of a bounded authority-graph resolution (`raucle/chain_graph.py`). */
module ChainGraph {
  import opened Basics

  type Id = string

  const MAX_DEPTH := 20
  const MAX_BREADTH := 1000

  /** A decoded receipt: its sorted parent links, its capability, and its policy node's audit events. */
  datatype Receipt = Receipt(parents: seq<Id>, capability: Option<Id>, policy: Option<seq<Id>>)

  /** Receipts by hash, and the parent link of every delegation record by token id. */
  datatype Context = Context(corpus: map<Id, Receipt>, tokens: map<Id, Option<Id>>, root: Id, depth: nat, breadth: nat)

  datatype Node = ReceiptNode(id: Id) | DelegationNode(id: Id, token: Id) | PolicyNode(id: Id) | AuditNode(id: Id)

  datatype EdgeKind = ParentLink | DelegationLink | DelegationParent | PolicyBinding | Deployment

  datatype Edge = Edge(kind: EdgeKind, src: Id, dst: Id, found: Option<bool>)

  datatype Kind = AReceipt | ADelegation | APolicy | AnAudit

  datatype Reason = DepthLimit | BreadthLimit

  datatype Cut = Cut(kind: Kind, reference: Id, reason: Reason)

  datatype Missing = Missing(kind: Kind, reference: Id)

  datatype Graph = Graph(
    nodes: map<Id, Node>, edges: seq<Edge>, unknown: seq<Missing>, pruned: seq<Cut>, truncated: bool)

  function DelegationId(token: Id): Id {
    "delegation:" + token
  }

  lemma DelegationIdInjective(a: Id, b: Id)
    requires DelegationId(a) == DelegationId(b)
    ensures a == b
  {
    assert DelegationId(a)[11..] == a && DelegationId(b)[11..] == b;
  }

  function PolicyId(receipt: Id): Id {
    "policy:" + receipt
  }

  function KindOf(n: Node): Kind {
    match n
    case ReceiptNode(_) => AReceipt
    case DelegationNode(_, _) => ADelegation
    case PolicyNode(_) => APolicy
    case AuditNode(_) => AnAudit
  }

  // ---- The state ----------------------------------------------------------

  class GraphState {
    const breadth: nat
    var nodes: map<Id, Node>
    var edges: seq<Edge>
    var unknown: seq<Missing>
    var pruned: seq<Cut>
    var visited: set<Id>
    var truncated: bool

    constructor (breadth: nat)
      ensures this.breadth == breadth && Valid() && View() == Graph(map[], [], [], [], false)
    {
      this.breadth := breadth;
      nodes, edges, unknown, pruned, visited, truncated := map[], [], [], [], {}, false;
    }

    ghost predicate Valid()
      reads this
    {
      visited == nodes.Keys
    }

    ghost function View(): Graph
      reads this
    {
      Graph(nodes, edges, unknown, pruned, truncated)
    }

    /** `add_node`: a known id is fine; a new one must fit the breadth. */
    method AddNode(node: Node) returns (ok: bool)
      requires Valid()
      modifies this
      ensures Valid()
      ensures ok == (node.id in old(visited) || |old(visited)| < breadth)
      ensures visited == old(visited) + if ok then {node.id} else {}
      ensures View() ==
              if node.id in old(nodes) then old(View())
              else if ok then old(View()).(nodes := old(nodes)[node.id := node])
              else old(View()).(pruned := old(pruned) + [Cut(KindOf(node), node.id, BreadthLimit)], truncated := true)
    {
      assert visited == nodes.Keys;
      if node.id in visited {
        return true;
      }
      if |nodes| >= breadth {
        pruned := pruned + [Cut(KindOf(node), node.id, BreadthLimit)];
        truncated := true;
        return false;
      }
      visited := visited + {node.id};
      nodes := nodes[node.id := node];
      return true;
    }

    method AddEdge(kind: EdgeKind, src: Id, dst: Id, found: Option<bool>)
      modifies this`edges
      ensures View() == old(View()).(edges := old(edges) + [Edge(kind, src, dst, found)])
    {
      edges := edges + [Edge(kind, src, dst, found)];
    }

    method Prune(kind: Kind, reference: Id, reason: Reason)
      modifies this`pruned, this`truncated
      ensures View() == old(View()).(pruned := old(pruned) + [Cut(kind, reference, reason)], truncated := true)
    {
      truncated := true;
      pruned := pruned + [Cut(kind, reference, reason)];
    }

    method UnknownRef(kind: Kind, reference: Id)
      modifies this`unknown
      ensures View() == old(View()).(unknown := old(unknown) + [Missing(kind, reference)])
    {
      unknown := unknown + [Missing(kind, reference)];
    }
  }

  // ---- What the state promises --------------------------------------------

  /** `x` is `k` parent links above the root, every link cited by a decodable receipt. */
  ghost predicate Reach(ctx: Context, k: nat, x: Id) {
    if k == 0 then x == ctx.root
    else exists y :: y in ctx.corpus && Reach(ctx, k - 1, y) && x in ctx.corpus[y].parents
  }

  ghost predicate WithinDepth(ctx: Context, x: Id) {
    exists k: nat :: k <= ctx.depth && Reach(ctx, k, x)
  }

  /** Ids the nodes of a graph can have. */
  ghost predicate IsNodeId(ctx: Context, id: Id) {
    || id in ctx.corpus
    || (exists t :: t in ctx.tokens && id == DelegationId(t))
    || (exists r :: r in ctx.corpus && id == PolicyId(r))
    || (exists r :: r in ctx.corpus && ctx.corpus[r].policy.Some? && id in ctx.corpus[r].policy.value)
  }

  ghost predicate NodeOk(ctx: Context, id: Id, node: Node) {
    && node.id == id && IsNodeId(ctx, id)
    && (node.ReceiptNode? ==> id in ctx.corpus && WithinDepth(ctx, id))
    && (node.DelegationNode? ==> node.token in ctx.tokens && id == DelegationId(node.token))
    && (node.PolicyNode? ==> exists r :: r in ctx.corpus && ctx.corpus[r].policy.Some? && id == PolicyId(r))
    && (node.AuditNode? ==>
          exists r :: r in ctx.corpus && ctx.corpus[r].policy.Some? && id in ctx.corpus[r].policy.value)
  }

  ghost predicate NodesOk(ctx: Context, g: Graph) {
    |g.nodes| <= ctx.breadth && forall id :: id in g.nodes ==> NodeOk(ctx, id, g.nodes[id])
  }

  /** The token `k` parent links above `token`, while there are records. */
  ghost function Ancestor(ctx: Context, token: Id, k: nat): Option<Id> {
    if k == 0 then Some(token)
    else
      match Ancestor(ctx, token, k - 1)
      case None => None
      case Some(t) => if t in ctx.tokens then ctx.tokens[t] else None
  }

  /** Receipt links and delegation links to the token together use up the depth. */
  ghost predicate OutOfHops(ctx: Context, token: Id) {
    exists h: nat, k: nat, r ::
      && r in ctx.corpus && Reach(ctx, h, r) && ctx.corpus[r].capability.Some?
      && Ancestor(ctx, ctx.corpus[r].capability.value, k) == Some(token) && h + k >= ctx.depth
  }

  /** Some receipt or delegation record cites the token. */
  ghost predicate CitedToken(ctx: Context, token: Id) {
    || (exists r :: r in ctx.corpus && ctx.corpus[r].capability == Some(token))
    || (exists t :: t in ctx.tokens && ctx.tokens[t] == Some(token))
  }

  /** A node of this kind may have this id. */
  ghost predicate KindOk(ctx: Context, kind: Kind, id: Id) {
    match kind
    case AReceipt => NodeOk(ctx, id, ReceiptNode(id))
    case ADelegation => exists t :: NodeOk(ctx, id, DelegationNode(id, t))
    case APolicy => NodeOk(ctx, id, PolicyNode(id))
    case AnAudit => NodeOk(ctx, id, AuditNode(id))
  }

  ghost predicate CutOk(ctx: Context, c: Cut) {
    && (c.reason == BreadthLimit ==> KindOk(ctx, c.kind, c.reference))
    && (c.reason == DepthLimit ==> c.kind == AReceipt || c.kind == ADelegation)
    && (c.reason == DepthLimit && c.kind == AReceipt ==> Reach(ctx, ctx.depth + 1, c.reference))
    && (c.reason == DepthLimit && c.kind == ADelegation ==> OutOfHops(ctx, c.reference))
  }

  /** An unknown receipt is cited within the depth; an unknown token is cited. */
  ghost predicate UnknownOk(ctx: Context, m: Missing) {
    match m.kind
    case AReceipt => m.reference !in ctx.corpus && WithinDepth(ctx, m.reference)
    case ADelegation => m.reference !in ctx.tokens && CitedToken(ctx, m.reference)
    case _ => false
  }

  /** Cuts say why: the graph was full, or the receipt or token is one link too far. */
  ghost predicate CutsOk(ctx: Context, g: Graph) {
    && (g.truncated <==> g.pruned != [])
    && forall c :: c in g.pruned ==>
         CutOk(ctx, c) && (c.reason == BreadthLimit ==> |g.nodes| == ctx.breadth)
  }

  ghost predicate MissingOk(ctx: Context, g: Graph) {
    forall m :: m in g.unknown ==> UnknownOk(ctx, m)
  }

  /** Every edge states a link some receipt or delegation record cites. */
  ghost predicate Justified(ctx: Context, e: Edge) {
    match e.kind
    case ParentLink => e.src in ctx.corpus && WithinDepth(ctx, e.src) && e.dst in ctx.corpus[e.src].parents
    case DelegationLink =>
      e.src in ctx.corpus && ctx.corpus[e.src].capability.Some?
      && e.dst == DelegationId(ctx.corpus[e.src].capability.value)
      && e.found == Some(ctx.corpus[e.src].capability.value in ctx.tokens)
    case DelegationParent =>
      exists t :: t in ctx.tokens && e.src == DelegationId(t) && ctx.tokens[t].Some?
        && e.dst == DelegationId(ctx.tokens[t].value) && e.found == Some(ctx.tokens[t].value in ctx.tokens)
    case PolicyBinding => e.src in ctx.corpus && ctx.corpus[e.src].policy.Some? && e.dst == PolicyId(e.src)
    case Deployment => e.src in ctx.corpus && ctx.corpus[e.src].policy.Some? && e.dst in ctx.corpus[e.src].policy.value
  }

  ghost predicate EdgesOk(ctx: Context, g: Graph) {
    forall e :: e in g.edges ==> Justified(ctx, e)
  }

  ghost predicate Base(ctx: Context, g: Graph) {
    NodesOk(ctx, g) && CutsOk(ctx, g) && MissingOk(ctx, g) && EdgesOk(ctx, g)
  }

  /** A target is in the graph, or named among the cuts or the unknown references. */
  ghost predicate Named(g: Graph, dst: Id) {
    || dst in g.nodes
    || (exists c :: c in g.pruned &&
          (c.reference == dst || (c.kind == ADelegation && DelegationId(c.reference) == dst)))
    || (exists m :: m in g.unknown &&
          (m.reference == dst || (m.kind == ADelegation && DelegationId(m.reference) == dst)))
  }

  ghost predicate NamedBut(g: Graph, kind: EdgeKind) {
    forall e :: e in g.edges && e.kind != kind ==> Named(g, e.dst)
  }

  /** The delegation parent edge every delegation node with a parent owes. */
  ghost predicate Owes(ctx: Context, g: Graph, id: Id) {
    && id in g.nodes && g.nodes[id].DelegationNode?
    && g.nodes[id].token in ctx.tokens && ctx.tokens[g.nodes[id].token].Some?
  }

  ghost function Owed(ctx: Context, g: Graph, id: Id): Edge
    requires Owes(ctx, g, id)
  {
    var p := ctx.tokens[g.nodes[id].token].value;
    Edge(DelegationParent, id, DelegationId(p), Some(p in ctx.tokens))
  }

  ghost predicate DelegationsLinked(ctx: Context, g: Graph, waiting: set<Id>) {
    forall id :: Owes(ctx, g, id) && id !in waiting ==> Owed(ctx, g, id) in g.edges
  }

  // ---- Growth -------------------------------------------------------------

  ghost predicate Grew(a: Graph, b: Graph) {
    && (forall id :: id in a.nodes ==> id in b.nodes && b.nodes[id] == a.nodes[id])
    && (forall e :: e in a.edges ==> e in b.edges)
    && (forall m :: m in a.unknown ==> m in b.unknown)
    && (forall c :: c in a.pruned ==> c in b.pruned)
  }

  /** Growth that adds no receipt and no parent link. */
  ghost predicate SideGrowth(a: Graph, b: Graph) {
    && Grew(a, b)
    && (forall id :: id in b.nodes && b.nodes[id].ReceiptNode? ==> id in a.nodes)
    && (forall e :: e in b.edges && e.kind == ParentLink ==> e in a.edges)
  }

  lemma SideTransitive(a: Graph, b: Graph, c: Graph)
    requires SideGrowth(a, b) && SideGrowth(b, c)
    ensures SideGrowth(a, c)
  {
  }

  lemma GrewNamed(a: Graph, b: Graph, kind: EdgeKind)
    requires Grew(a, b) && NamedBut(a, kind)
    ensures forall e :: e in a.edges && e.kind != kind ==> Named(b, e.dst)
  {
  }

  /** What one primitive step of the walk keeps. */
  ghost predicate Kept(ctx: Context, g: Graph, waiting: set<Id>) {
    Base(ctx, g) && NamedBut(g, ParentLink) && DelegationsLinked(ctx, g, waiting)
  }

  lemma LinkedStays(ctx: Context, a: Graph, b: Graph, waiting: set<Id>)
    requires Grew(a, b) && DelegationsLinked(ctx, a, waiting)
    requires forall id :: Owes(ctx, b, id) && id !in waiting ==> id in a.nodes
    ensures DelegationsLinked(ctx, b, waiting)
  {
  }

  lemma NodeAddedBase(ctx: Context, g: Graph, b: Graph, node: Node)
    requires Base(ctx, g) && NodeOk(ctx, node.id, node) && node.id !in g.nodes && |g.nodes| < ctx.breadth
    requires b == g.(nodes := g.nodes[node.id := node])
    ensures Base(ctx, b)
  {
  }

  lemma NodeAdded(ctx: Context, g: Graph, b: Graph, node: Node, waiting: set<Id>)
    requires Kept(ctx, g, waiting) && NodeOk(ctx, node.id, node) && node.id !in g.nodes && |g.nodes| < ctx.breadth
    requires b == g.(nodes := g.nodes[node.id := node])
    ensures Grew(g, b) && (!node.ReceiptNode? ==> SideGrowth(g, b))
    ensures Kept(ctx, b, if node.DelegationNode? then waiting + {node.id} else waiting)
  {
    NodeAddedBase(ctx, g, b, node);
    hide Base, NodeOk, Named;
    GrewNamed(g, b, ParentLink);
    LinkedStays(ctx, g, b, waiting + {node.id});
  }

  lemma CutAdded(ctx: Context, g: Graph, b: Graph, c: Cut, waiting: set<Id>)
    requires Kept(ctx, g, waiting) && b == g.(pruned := g.pruned + [c], truncated := true)
    requires c.reason == BreadthLimit ==> |g.nodes| == ctx.breadth
    requires CutOk(ctx, c)
    ensures SideGrowth(g, b) && Kept(ctx, b, waiting) && c in b.pruned
  {
    hide NodeOk, Justified, CutOk, UnknownOk, Named;
    GrewNamed(g, b, ParentLink);
    LinkedStays(ctx, g, b, waiting);
  }

  lemma MissingAdded(ctx: Context, g: Graph, b: Graph, m: Missing, waiting: set<Id>)
    requires Kept(ctx, g, waiting) && b == g.(unknown := g.unknown + [m])
    requires UnknownOk(ctx, m)
    ensures SideGrowth(g, b) && Kept(ctx, b, waiting) && m in b.unknown
  {
    hide NodeOk, Justified, CutOk, UnknownOk, Named;
    GrewNamed(g, b, ParentLink);
    LinkedStays(ctx, g, b, waiting);
  }

  /** A new edge; when it is the one a waiting delegation node owes, the node stops waiting. */
  lemma EdgeAdded(ctx: Context, g: Graph, b: Graph, e: Edge, waiting: set<Id>, paid: set<Id>)
    requires Kept(ctx, g, waiting) && b == g.(edges := g.edges + [e])
    requires Justified(ctx, e) && (e.kind == ParentLink || Named(g, e.dst))
    requires forall id :: id in paid && Owes(ctx, g, id) ==> Owed(ctx, g, id) == e
    ensures Grew(g, b) && Kept(ctx, b, waiting - paid) && e in b.edges
    ensures e.kind != ParentLink ==> SideGrowth(g, b)
  {
    hide NodeOk, Justified, CutOk, UnknownOk;
    assert Named(g, e.dst) ==> Named(b, e.dst);
    hide Named;
    GrewNamed(g, b, ParentLink);
    forall id | Owes(ctx, b, id) && id !in waiting - paid
      ensures Owed(ctx, b, id) in b.edges
    {
      assert Owes(ctx, g, id) && Owed(ctx, g, id) == Owed(ctx, b, id);
    }
  }
}
