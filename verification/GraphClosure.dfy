/** `resolve_chain_graph` (`raucle/chain_graph.py`): termination, and what the whole result says. */
module GraphClosure {
  import opened Basics
  import opened ChainGraph
  import opened GraphWalk
  import opened GraphResolve
  import opened GraphRun

  // ---- The frontier -------------------------------------------------------

  ghost predicate Seen(done: set<Item>, queue: seq<Item>, it: Item) {
    it in done || it in queue
  }

  /** What became of an item taken from the queue. */
  ghost predicate Handled(ctx: Context, g: Graph, done: set<Item>, queue: seq<Item>, it: Item) {
    if it.hop > ctx.depth then Cut(AReceipt, it.id, DepthLimit) in g.pruned
    else if it.id !in ctx.corpus then Missing(AReceipt, it.id) in g.unknown
    else
      || Cut(AReceipt, it.id, BreadthLimit) in g.pruned
      || (it.id in g.nodes && forall p :: p in ctx.corpus[it.id].parents ==> Seen(done, queue, Item(p, it.hop + 1)))
  }

  ghost predicate Frontier(ctx: Context, g: Graph, done: set<Item>, queue: seq<Item>) {
    && Seen(done, queue, Item(ctx.root, 0))
    && (forall it :: it in queue ==> it.hop <= ctx.depth + 1 && Reach(ctx, it.hop, it.id))
    && (forall it :: it in done ==> it.hop <= ctx.depth + 1 && Handled(ctx, g, done, queue, it))
  }

  /** Parent link targets are named already or still queued. */
  ghost predicate ParentsNamed(g: Graph, queue: seq<Item>) {
    forall e :: e in g.edges && e.kind == ParentLink ==> Named(g, e.dst) || exists it :: it in queue && it.id == e.dst
  }

  lemma HandledStays(ctx: Context, a: Graph, b: Graph, done: set<Item>, queue: seq<Item>,
                     done': set<Item>, queue': seq<Item>, it: Item)
    requires Grew(a, b) && Handled(ctx, a, done, queue, it)
    requires forall x :: Seen(done, queue, x) ==> Seen(done', queue', x)
    ensures Handled(ctx, b, done', queue', it)
  {
  }

  lemma ReachStep(ctx: Context, it: Item, p: Id)
    requires Reach(ctx, it.hop, it.id) && it.id in ctx.corpus && p in ctx.corpus[it.id].parents
    ensures Reach(ctx, it.hop + 1, p)
  {
  }

  /** Taking the first item off the queue and appending what it leads to keeps the frontier. */
  lemma FrontierStep(ctx: Context, a: Graph, b: Graph, done: set<Item>, queue: seq<Item>, next: seq<Id>)
    requires queue != [] && Frontier(ctx, a, done, queue) && Grew(a, b)
    requires queue[0].hop > ctx.depth ==> next == [] && Cut(AReceipt, queue[0].id, DepthLimit) in b.pruned
    requires queue[0].hop <= ctx.depth ==> Processed(ctx, b, queue[0].id, next)
    ensures Frontier(ctx, b, done + {queue[0]}, queue[1..] + Items(next, queue[0].hop + 1))
  {
    hide Reach, Handled, Grew;
    var it := queue[0];
    var done', queue' := done + {it}, queue[1..] + Items(next, it.hop + 1);
    SeenStays(done, queue, Items(next, it.hop + 1));
    forall x | x in queue'
      ensures x.hop <= ctx.depth + 1 && Reach(ctx, x.hop, x.id)
    {
      if x in queue[1..] {
        assert x in queue;
      } else {
        assert x in Items(next, it.hop + 1) && it in queue;
        ReachStep(ctx, it, x.id);
      }
    }
    FirstHandled(ctx, b, done', queue, next, it);
    forall x | x in done'
      ensures x.hop <= ctx.depth + 1 && Handled(ctx, b, done', queue', x)
    {
      if x != it {
        HandledStays(ctx, a, b, done, queue, done', queue', x);
      } else {
        assert it in queue;
      }
    }
  }

  lemma SeenStays(done: set<Item>, queue: seq<Item>, more: seq<Item>)
    requires queue != []
    ensures forall x :: Seen(done, queue, x) ==> Seen(done + {queue[0]}, queue[1..] + more, x)
  {
  }

  lemma FirstHandled(ctx: Context, b: Graph, done: set<Item>, queue: seq<Item>, next: seq<Id>, it: Item)
    requires queue != [] && it == queue[0]
    requires it.hop > ctx.depth ==> next == [] && Cut(AReceipt, it.id, DepthLimit) in b.pruned
    requires it.hop <= ctx.depth ==> Processed(ctx, b, it.id, next)
    ensures Handled(ctx, b, done, queue[1..] + Items(next, it.hop + 1), it)
  {
  }

  lemma ItemNamed(ctx: Context, g: Graph, it: Item, parents: seq<Id>)
    requires it.hop > ctx.depth ==> Cut(AReceipt, it.id, DepthLimit) in g.pruned
    requires it.hop <= ctx.depth ==> Processed(ctx, g, it.id, parents)
    ensures Named(g, it.id)
  {
  }

  lemma ParentsNamedStep(ctx: Context, a: Graph, b: Graph, queue: seq<Item>, next: seq<Id>)
    requires queue != [] && ParentsNamed(a, queue) && GrowthAt(a, b, queue[0].id, next)
    requires Named(b, queue[0].id)
    ensures ParentsNamed(b, queue[1..] + Items(next, queue[0].hop + 1))
  {
  }

  // ---- The result ---------------------------------------------------------

  ghost predicate CutForBreadth(g: Graph) {
    exists c :: c in g.pruned && c.reason == BreadthLimit
  }

  /** What the result says of an id `k` parent links above the root. */
  ghost predicate Reported(ctx: Context, g: Graph, k: nat, x: Id) {
    if k > ctx.depth then Cut(AReceipt, x, DepthLimit) in g.pruned
    else if x !in ctx.corpus then Missing(AReceipt, x) in g.unknown
    else x in g.nodes
  }

  function Settled(corpus: map<Id, Receipt>, e: Edge): Edge {
    if e.kind == ParentLink then e.(found := Some(e.dst in corpus)) else e
  }

  /** Everything `resolve_chain_graph` promises of a graph with a decodable root. */
  ghost predicate Faithful(ctx: Context, g: Graph) {
    && Base(ctx, g)
    && ctx.root in g.nodes && g.nodes[ctx.root] == ReceiptNode(ctx.root)
    && (forall e :: e in g.edges ==> Named(g, e.dst) && e == Settled(ctx.corpus, e))
    && DelegationsLinked(ctx, g, {})
    && (forall r :: r in g.nodes && g.nodes[r].ReceiptNode? ==> LinksSettled(ctx, g, r))
    && (!CutForBreadth(g) ==> forall k: nat, x :: k <= ctx.depth + 1 && Reach(ctx, k, x) ==> Reported(ctx, g, k, x))
  }

  /** Every link a receipt cites is an edge, with its settled `found` state. */
  ghost predicate LinksSettled(ctx: Context, g: Graph, r: Id) {
    r in ctx.corpus &&
    var receipt := ctx.corpus[r];
    && (forall p :: p in receipt.parents ==> Edge(ParentLink, r, p, Some(p in ctx.corpus)) in g.edges)
    && (receipt.capability.GetOr("") != "" ==>
          var c := receipt.capability.value;
          r == DelegationId(c) || Edge(DelegationLink, r, DelegationId(c), Some(c in ctx.tokens)) in g.edges)
    && (receipt.policy.Some? ==>
          && Edge(PolicyBinding, r, PolicyId(r), Some(true)) in g.edges
          && forall a :: a in receipt.policy.value ==> Edge(Deployment, r, a, Some(true)) in g.edges)
  }

  lemma {:induction false} EverythingDone(ctx: Context, g: Graph, done: set<Item>, k: nat, x: Id)
    requires Frontier(ctx, g, done, []) && !CutForBreadth(g) && k <= ctx.depth + 1 && Reach(ctx, k, x)
    ensures Item(x, k) in done && Reported(ctx, g, k, x)
  {
    if k == 0 {
      assert Seen(done, [], Item(ctx.root, 0));
    } else {
      var y :| y in ctx.corpus && Reach(ctx, k - 1, y) && x in ctx.corpus[y].parents;
      EverythingDone(ctx, g, done, k - 1, y);
      assert Handled(ctx, g, done, [], Item(y, k - 1));
      assert Seen(done, [], Item(x, k));
    }
    assert Handled(ctx, g, done, [], Item(x, k));
  }

  /** The last pass over the edges: whether each cited parent resolves in the corpus. */
  method SettleParents(ctx: Context, edges: seq<Edge>) returns (out: seq<Edge>)
    ensures |out| == |edges| && forall i :: 0 <= i < |out| ==> out[i] == Settled(ctx.corpus, edges[i])
  {
    out := edges;
    for i := 0 to |edges|
      invariant |out| == |edges|
      invariant forall j :: 0 <= j < i ==> out[j] == Settled(ctx.corpus, edges[j])
      invariant forall j :: i <= j < |edges| ==> out[j] == edges[j]
    {
      if out[i].kind == ParentLink {
        out := out[i := out[i].(found := Some(out[i].dst in ctx.corpus))];
      }
    }
  }

  /** `b` is `a` with its parent edges settled. */
  ghost predicate SettledGraph(ctx: Context, a: Graph, b: Graph) {
    && b == a.(edges := b.edges) && |b.edges| == |a.edges|
    && forall i :: 0 <= i < |b.edges| ==> b.edges[i] == Settled(ctx.corpus, a.edges[i])
  }

  lemma SettledMembers(ctx: Context, a: Graph, b: Graph)
    requires SettledGraph(ctx, a, b)
    ensures forall e :: e in a.edges ==> Settled(ctx.corpus, e) in b.edges
    ensures forall e :: e in b.edges ==> exists e0 :: e0 in a.edges && e == Settled(ctx.corpus, e0)
  {
  }

  lemma SettledBase(ctx: Context, a: Graph, b: Graph)
    requires Base(ctx, a) && SettledGraph(ctx, a, b)
    ensures Base(ctx, b)
  {
    hide NodesOk, Reach, WithinDepth;
    assert NodesOk(ctx, b) by {
      SameNodes(ctx, a, b);
    }
    SettledMembers(ctx, a, b);
    forall e | e in b.edges
      ensures Justified(ctx, e)
    {
      var e0 :| e0 in a.edges && e == Settled(ctx.corpus, e0);
      assert Justified(ctx, e0);
      SettledJustified(ctx, e0);
    }
  }

  lemma SameNodes(ctx: Context, a: Graph, b: Graph)
    requires NodesOk(ctx, a) && a.nodes == b.nodes
    ensures NodesOk(ctx, b)
  {
  }

  lemma SettledJustified(ctx: Context, e: Edge)
    requires Justified(ctx, e)
    ensures Justified(ctx, Settled(ctx.corpus, e))
  {
  }

  lemma SettledLinks(ctx: Context, a: Graph, b: Graph)
    requires SettledGraph(ctx, a, b) && ReceiptsLinked(ctx, a, {})
    ensures forall r :: r in b.nodes && b.nodes[r].ReceiptNode? ==> LinksSettled(ctx, b, r)
  {
  }

  lemma SettledDelegations(ctx: Context, a: Graph, b: Graph)
    requires SettledGraph(ctx, a, b) && DelegationsLinked(ctx, a, {})
    ensures DelegationsLinked(ctx, b, {})
  {
  }

  lemma SettledNamed(ctx: Context, a: Graph, b: Graph)
    requires SettledGraph(ctx, a, b) && NamedBut(a, ParentLink) && ParentsNamed(a, [])
    ensures forall e :: e in b.edges ==> Named(b, e.dst) && e == Settled(ctx.corpus, e)
  {
  }

  lemma FrontierComplete(ctx: Context, a: Graph, b: Graph, done: set<Item>)
    requires Frontier(ctx, a, done, []) && SettledGraph(ctx, a, b)
    ensures !CutForBreadth(b) ==> forall k: nat, x :: k <= ctx.depth + 1 && Reach(ctx, k, x) ==> Reported(ctx, b, k, x)
  {
    if !CutForBreadth(b) {
      forall k: nat, x | k <= ctx.depth + 1 && Reach(ctx, k, x)
        ensures Reported(ctx, b, k, x)
      {
        EverythingDone(ctx, a, done, k, x);
      }
    }
  }

  lemma SettledFaithful(ctx: Context, a: Graph, b: Graph, done: set<Item>)
    requires Kept(ctx, a, {}) && ReceiptsLinked(ctx, a, {}) && Frontier(ctx, a, done, []) && ParentsNamed(a, [])
    requires ctx.root in a.nodes && a.nodes[ctx.root] == ReceiptNode(ctx.root)
    requires SettledGraph(ctx, a, b)
    ensures Faithful(ctx, b)
  {
    hide Base, NamedBut, DelegationsLinked, ReceiptsLinked, Frontier, ParentsNamed, LinksSettled, Named,
      Reach, Reported, CutForBreadth;
    SettledBase(ctx, a, b);
    SettledNamed(ctx, a, b);
    SettledDelegations(ctx, a, b);
    SettledLinks(ctx, a, b);
    FrontierComplete(ctx, a, b, done);
  }

  // ---- The resolver -------------------------------------------------------

  function Clamp(lo: int, x: int, hi: int): int {
    if x < lo then lo else if x > hi then hi else x
  }

  /** The bounds in force: depth 0 to 20, breadth 1 to 1000. */
  function MakeContext(corpus: map<Id, Receipt>, tokens: map<Id, Option<Id>>, root: Id, depth: int, breadth: int)
    : (ctx: Context)
    ensures ctx.corpus == corpus && ctx.tokens == tokens && ctx.root == root
    ensures ctx.depth <= 20 && 1 <= ctx.breadth <= 1000
    ensures ctx.depth != depth ==> depth < ctx.depth == 0 || depth > ctx.depth == 20
    ensures ctx.breadth != breadth ==> breadth < ctx.breadth == 1 || breadth > ctx.breadth == 1000
  {
    Context(corpus, tokens, root, Clamp(0, depth, MAX_DEPTH), Clamp(1, breadth, MAX_BREADTH))
  }

  /** The loop invariant of the worklist. */
  ghost predicate Working(ctx: Context, g: Graph, done: set<Item>, queue: seq<Item>) {
    && Kept(ctx, g, {}) && ReceiptsLinked(ctx, g, {})
    && Frontier(ctx, g, done, queue) && ParentsNamed(g, queue) && HopsOk(ctx.depth, queue)
    && if ctx.root in g.nodes then g.nodes[ctx.root] == ReceiptNode(ctx.root)
       else g.nodes == map[] && queue != [] && queue[0] == Item(ctx.root, 0)
  }

  lemma WorkStarts(ctx: Context)
    ensures Working(ctx, Graph(map[], [], [], [], false), {}, [Item(ctx.root, 0)])
  {
  }

  lemma WorkDone(ctx: Context, a: Graph, b: Graph, done: set<Item>)
    requires Working(ctx, a, done, []) && SettledGraph(ctx, a, b)
    ensures Faithful(ctx, b)
  {
    hide Kept, ReceiptsLinked, Frontier, ParentsNamed, Faithful, SettledGraph;
    SettledFaithful(ctx, a, b, done);
  }

  /** One turn of the worklist. */
  method WorkStep(state: GraphState, ctx: Context, ghost done: set<Item>, queue: seq<Item>)
    returns (parents: seq<Id>)
    requires state.Valid() && state.breadth == ctx.breadth && queue != []
    requires HeadEnds(ctx, Config(state.visited, queue))
    requires Working(ctx, state.View(), done, queue) && ctx.root in ctx.corpus && ctx.breadth > 0
    modifies state
    ensures state.Valid()
    ensures queue[0].hop > ctx.depth ==> parents == []
    ensures parents == [] || (queue[0].id in ctx.corpus && parents == ctx.corpus[queue[0].id].parents)
    ensures Config(state.visited, queue[1..] + Items(parents, queue[0].hop + 1))
            == NextConfig(ctx, old(Config(state.visited, queue)))
    ensures Working(ctx, state.View(), done + {queue[0]}, queue[1..] + Items(parents, queue[0].hop + 1))
  {
    hide Kept, ReceiptsLinked, Frontier, ParentsNamed, Named, GrowthAt, HopsOk, Reach, WalkEnds;
    ghost var g := state.View();
    var it := queue[0];
    FirstReach(ctx, g, done, queue);
    if it.hop > ctx.depth {
      state.Prune(AReceipt, it.id, DepthLimit);
      CutAdded(ctx, g, state.View(), Cut(AReceipt, it.id, DepthLimit), {});
      GrowthSelf(g, it.id);
      SideIsGrowth(g, g, state.View(), it.id, []);
      GrowthLinked(ctx, g, state.View(), it.id, []);
      parents := [];
    } else {
      parents := ProcessReceipt(state, ctx, it.id, it.hop);
    }
    ghost var b := state.View();
    ItemNamed(ctx, b, it, parents);
    GrowthNodes(g, b, it.id, parents);
    GrowthGrew(g, b, it.id, parents);
    FrontierStep(ctx, g, b, done, queue, parents);
    ParentsNamedStep(ctx, g, b, queue, parents);
    HopsAfter(ctx.depth, queue, parents);
  }

  lemma GrowthGrew(a: Graph, b: Graph, r: Id, parents: seq<Id>)
    requires GrowthAt(a, b, r, parents)
    ensures Grew(a, b)
  {
  }

  lemma FirstReach(ctx: Context, g: Graph, done: set<Item>, queue: seq<Item>)
    requires queue != [] && Frontier(ctx, g, done, queue)
    ensures queue[0].hop <= ctx.depth + 1 && Reach(ctx, queue[0].hop, queue[0].id)
  {
  }

  /**
   `resolve_chain_graph`: `None` when the root receipt cannot be decoded. The worklist ends on
   every corpus, cyclic ones included: each turn lowers the weight of the queue. Required is
   exactly what halting takes (`GraphRun.ResolutionHaltsIff`).
   */
  method Resolve(corpus: map<Id, Receipt>, tokens: map<Id, Option<Id>>, root: Id, depth: int, breadth: int)
    returns (result: Option<Graph>)
    requires var ctx := MakeContext(corpus, tokens, root, depth, breadth);
             root in corpus ==> WalksEndFrom(ctx, Start(ctx))
    ensures result.None? <==> root !in corpus
    ensures result.Some? ==> Faithful(MakeContext(corpus, tokens, root, depth, breadth), result.value)
  {
    hide WalksEndFrom, HeadEnds, NextConfig, Working, Faithful, HopsOk;
    var ctx := MakeContext(corpus, tokens, root, depth, breadth);
    if root !in corpus {
      return None;
    }
    var state := new GraphState(ctx.breadth);
    var queue := [Item(root, 0)];
    ghost var done: set<Item> := {};
    ghost var bound := ParentBound(corpus, corpus.Keys);
    assert state.visited == {};
    WorkStarts(ctx);
    WorkHops(ctx, state.View(), done, queue);
    while queue != []
      invariant fresh(state) && state.Valid() && state.breadth == ctx.breadth
      invariant Working(ctx, state.View(), done, queue) && HopsOk(ctx.depth, queue)
      invariant WalksEndFrom(ctx, Config(state.visited, queue))
      decreases Weight(bound, ctx.depth, queue)
    {
      var it := queue[0];
      WalksEndStep(ctx, Config(state.visited, queue));
      var parents := WorkStep(state, ctx, done, queue);
      WeightDrops(bound, ctx.depth, queue, parents);
      done := done + {it};
      queue := queue[1..] + Items(parents, it.hop + 1);
      WorkHops(ctx, state.View(), done, queue);
    }
    var edges := SettleParents(ctx, state.edges);
    var g := Graph(state.nodes, edges, state.unknown, state.pruned, state.truncated);
    WorkDone(ctx, state.View(), g, done);
    return Some(g);
  }

  lemma WorkHops(ctx: Context, g: Graph, done: set<Item>, queue: seq<Item>)
    requires Working(ctx, g, done, queue)
    ensures HopsOk(ctx.depth, queue)
  {
  }

  // ---- What a faithful graph tells its reader -----------------------------

  /** Some chain of cited links leads from the root to `x`. */
  ghost predicate Reachable(ctx: Context, x: Id) {
    exists k: nat :: Reach(ctx, k, x)
  }

  lemma UntruncatedReach(ctx: Context, g: Graph, k: nat, x: Id)
    requires Faithful(ctx, g) && !g.truncated && Reach(ctx, k, x)
    ensures k <= ctx.depth && Reported(ctx, g, k, x)
  {
  }

  lemma ReceiptIsReachable(ctx: Context, g: Graph, x: Id)
    requires Faithful(ctx, g) && x in g.nodes && g.nodes[x].ReceiptNode?
    ensures x in ctx.corpus && Reachable(ctx, x)
  {
  }

  /**
   A result that was not truncated holds every decodable receipt reachable from the root,
   at any distance, lists every reachable broken link, and holds no other receipt.
   */
  lemma UntruncatedIsComplete(ctx: Context, g: Graph, x: Id)
    requires Faithful(ctx, g) && !g.truncated
    ensures Reachable(ctx, x) ==> if x in ctx.corpus then x in g.nodes else Missing(AReceipt, x) in g.unknown
    ensures x in g.nodes && g.nodes[x].ReceiptNode? ==> x in ctx.corpus && Reachable(ctx, x)
  {
    if Reachable(ctx, x) {
      var k: nat :| Reach(ctx, k, x);
      UntruncatedReach(ctx, g, k, x);
    }
    if x in g.nodes && g.nodes[x].ReceiptNode? {
      ReceiptIsReachable(ctx, g, x);
    }
  }

  /** Unless the breadth ran out, the receipts of a graph are the decodable ones within depth. */
  lemma ReceiptsAreWithinDepth(ctx: Context, g: Graph, x: Id)
    requires Faithful(ctx, g) && !CutForBreadth(g) && x in ctx.corpus
    ensures WithinDepth(ctx, x) ==> x in g.nodes
    ensures x in g.nodes && g.nodes[x].ReceiptNode? ==> WithinDepth(ctx, x)
  {
  }

  /**
   A parent link that does not resolve is listed as unknown only when some path brings it
   within the depth, and exactly then unless the breadth ran out; past the depth it is only cut.
   */
  lemma BrokenLinkIsUnknownIff(ctx: Context, g: Graph, e: Edge)
    requires Faithful(ctx, g) && e in g.edges && e.kind == ParentLink
    ensures e.found == Some(e.dst in ctx.corpus)
    ensures Missing(AReceipt, e.dst) in g.unknown ==> e.found == Some(false) && WithinDepth(ctx, e.dst)
    ensures !CutForBreadth(g) ==>
              (Missing(AReceipt, e.dst) in g.unknown <==> e.found == Some(false) && WithinDepth(ctx, e.dst))
    ensures !g.truncated ==> (Missing(AReceipt, e.dst) in g.unknown <==> e.found == Some(false))
  {
    hide NodesOk, LinksSettled, DelegationsLinked, Named;
    assert e == Settled(ctx.corpus, e);
    assert !g.truncated ==> !CutForBreadth(g);
    hide CutForBreadth;
    if !CutForBreadth(g) {
      if WithinDepth(ctx, e.dst) {
        var k: nat :| k <= ctx.depth && Reach(ctx, k, e.dst);
        assert Reported(ctx, g, k, e.dst);
      }
      assert Justified(ctx, e);
      var k: nat :| k <= ctx.depth && Reach(ctx, k, e.src);
      assert Reach(ctx, k + 1, e.dst);
      assert Reported(ctx, g, k + 1, e.dst);
    }
  }

  /** So a broken link one hop too far reads as not found without being an unknown reference. */
  lemma BrokenLinkPastDepth(ctx: Context, g: Graph)
    requires ctx.root == "r" && ctx.depth == 0 && ctx.corpus == map["r" := Receipt(["p"], None, None)]
    requires Faithful(ctx, g)
    ensures Edge(ParentLink, "r", "p", Some(false)) in g.edges && Missing(AReceipt, "p") !in g.unknown
  {
    assert LinksSettled(ctx, g, "r");
    assert "p" in ctx.corpus["r"].parents;
    assert !Reach(ctx, 0, "p");
    assert !WithinDepth(ctx, "p");
  }

  /** A resolution cut only for depth tells the reader which receipts to ask for next. */
  lemma DepthCutsAreTheNextReceipts(ctx: Context, g: Graph, x: Id)
    requires Faithful(ctx, g) && !CutForBreadth(g)
    ensures Cut(AReceipt, x, DepthLimit) in g.pruned <==> Reach(ctx, ctx.depth + 1, x)
  {
  }
}
